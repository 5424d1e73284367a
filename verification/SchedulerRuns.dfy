/** Runs of the scheduler: what every run keeps, and exit statuses delivered exactly once. */
module SchedulerRuns {
  import opened Scheduling

  /** What the current task does next. `Missing` is the console failing to find a program it already spawned, `Collect`
      its `wait <pid>` command. */
  datatype Step =
    | Spawn(prepared: bool)
    | Missing
    | Exit(code: int)
    | Tick
    | Wait(pid: nat)
    | WaitAny
    | Collect(pid: nat)

  function MissingStep(s: Sys): (r: Sys)
    requires Shape(s)
    ensures Shape(r)
  {
    var i, s' := FreeSlot(s.table), Spawned(s, false).0;
    if i == |s.table| then s' else s'.(table := s'.table[i := s'.table[i].(waited := true)])
  }

  /** Some slot has the number. */
  ghost predicate Held(s: Sys, pid: nat)
    requires Shape(s)
  {
    exists i: nat :: i < CONSOLE && HoldsNumber(s.table[i], pid)
  }

  predicate HoldsNumber(p: Process, pid: nat) {
    p.pid == pid && !p.state.Empty?
  }

  /** Ticks land in program code, and numbers do not run out; waits may name any number, but the console goes on only
      while a slot has the number it waits for. */
  ghost predicate Legal(s: Sys, step: Step)
    requires Shape(s)
  {
    match step
    case Spawn(_) => s.at[s.current].InProgram? && s.nextPid + 1 < PID_SPACE
    case Missing => s.current == CONSOLE && s.at[s.current].InProgram? && s.nextPid + 1 < PID_SPACE
    case Exit(_) => s.current < CONSOLE && s.at[s.current].InProgram?
    case Tick => s.at[s.current].InProgram?
    case Wait(pid) =>
      (s.at[s.current].InProgram? || s.at[s.current] == InWait(pid)) && (s.current == CONSOLE ==> Held(s, pid))
    case WaitAny => s.current < CONSOLE && (s.at[s.current].InProgram? || s.at[s.current].InWaitAny?)
    case Collect(pid) => s.current == CONSOLE && s.at[CONSOLE].InProgram?
  }

  /** A wait that names the caller's own unreported child. */
  ghost predicate Polite(s: Sys, step: Step)
    requires Shape(s)
  {
    Legal(s, step) && (step.Wait? ==> HasChild(s, s.current, step.pid))
  }

  ghost function Do(s: Sys, step: Step): (r: (Sys, Report))
    requires Shape(s) && Legal(s, step)
    ensures Shape(r.0)
  {
    match step
    case Spawn(prepared) => (Spawned(s, prepared).0, NoReport)
    case Missing => (MissingStep(s), NoReport)
    case Exit(code) => (ExitStep(s, code), NoReport)
    case Tick => (TickStep(s), NoReport)
    case Wait(pid) => WaitStep(s, pid)
    case WaitAny => WaitAnyStep(s)
    case Collect(pid) => CollectStep(s, pid)
  }

  lemma MissingKeeps(s: Sys)
    requires Inv(s) && s.at[s.current].InProgram? && s.nextPid + 1 < PID_SPACE
    ensures Inv(MissingStep(s))
  {
    hide PidsOk, StatesOk;
    SpawnKeeps(s, false);
    MissingBasic(s);
    var i, m, s' := FreeSlot(s.table), Spawned(s, false).0, MissingStep(s);
    forall k: nat | k <= CONSOLE && i < CONSOLE ensures WaitOk(s', k) && (k < CONSOLE ==> BlockedOk(s', k)) {
      OldWaits(s, k);
      assert WaitOk(m, k) && (k < CONSOLE ==> BlockedOk(m, k));
      if k != i {
        SpawnWaits(s, false, k);
        AwaitedKept(s, s', k);
      }
    }
  }

  lemma MissingBasic(s: Sys)
    requires Basic(s) && ConsoleAlone(s) && s.nextPid + 1 < PID_SPACE
    ensures Basic(MissingStep(s)) && ConsoleAlone(MissingStep(s))
  {
    SpawnStates(s, false);
  }

  lemma OldWaits(s: Sys, k: nat)
    requires Inv(s) && k <= CONSOLE
    ensures WaitOk(s, k) && (k < CONSOLE ==> BlockedOk(s, k))
  {
  }

  lemma StepKeeps(s: Sys, step: Step)
    requires Inv(s) && Polite(s, step)
    ensures Inv(Do(s, step).0)
  {
    hide Inv;
    assert Inv(s);
    match step
    case Spawn(prepared) => SpawnKeeps(s, prepared);
    case Missing => MissingKeeps(s);
    case Exit(code) => ExitKeeps(s, code);
    case Tick => TickKeeps(s);
    case Wait(pid) => WaitKeeps(s, pid);
    case WaitAny => WaitAnyKeeps(s);
    case Collect(pid) => CollectKeeps(s, pid);
  }

  lemma HandOverBasic(s: Sys)
    requires Shape(s) && PidsOk(s)
    requires forall i :: 0 <= i < CONSOLE ==> !s.table[i].state.Running? && !s.table[i].state.Loading?
    requires forall i :: 0 <= i < CONSOLE && Live(s.table[i]) ==> !s.table[i].waited
    ensures Basic(SwitchTo(s, NextReady(s.table)))
  {
  }

  lemma ExitBasic(s: Sys, code: int)
    requires Basic(s) && s.current < CONSOLE
    ensures Basic(ExitStep(s, code)) && ExitStep(s, code).nextPid == s.nextPid
  {
    HandOverBasic(Buried(s, code));
  }

  lemma TickBasic(s: Sys)
    requires Basic(s)
    ensures Basic(TickStep(s)) && TickStep(s).nextPid == s.nextPid
  {
  }

  lemma StayBasic(s: Sys)
    requires Basic(s)
    ensures forall z: nat :: z < CONSOLE && Zombie(s.table[z]) ==>
      Basic(Reaped(s, z).0) && Reaped(s, z).0.nextPid == s.nextPid
    ensures Basic(s.(at := s.at[s.current := InProgram]))
  {
  }

  lemma BlockBasic(s: Sys, target: Target, at: Where)
    requires Basic(s)
    ensures var b := Block(s, target, at);
      Basic(SwitchTo(b, NextReady(b.table))) && SwitchTo(b, NextReady(b.table)).nextPid == s.nextPid
  {
    HandOverBasic(Block(s, target, at));
  }

  lemma SpawnBasic(s: Sys, prepared: bool)
    requires Basic(s) && s.nextPid + 1 < PID_SPACE
    ensures Basic(Spawned(s, prepared).0) && s.nextPid <= Spawned(s, prepared).0.nextPid
    ensures Basic(MissingStep(s)) && s.nextPid <= MissingStep(s).nextPid
  {
    SpawnStates(s, prepared);
    SpawnStates(s, false);
  }

  /** Numbers and states are right also if waits name other numbers. */
  lemma StepKeepsBasic(s: Sys, step: Step)
    requires Basic(s) && Legal(s, step)
    ensures Basic(Do(s, step).0) && s.nextPid <= Do(s, step).0.nextPid
  {
    hide PidsOk, StatesOk, SwitchTo, Block, ExitStep, TickStep, Spawned, MissingStep, Reaped, Zombie;
    match step
    case Spawn(prepared) => SpawnBasic(s, prepared);
    case Missing => SpawnBasic(s, false);
    case Exit(code) => ExitBasic(s, code);
    case Tick => TickBasic(s);
    case Wait(pid) =>
      StayBasic(s);
      BlockBasic(s, OnPid(pid), InWait(pid));
    case WaitAny =>
      StayBasic(s);
      BlockBasic(s, AnyChild, InWaitAny);
    case Collect(pid) =>
      StayBasic(s);
  }

  // ---- Zombies and reports ----

  /** The process `pid` ended with this state and code and was not reported yet. */
  ghost predicate Ended(s: Sys, pid: nat, state: State, code: int)
    requires Shape(s)
  {
    exists i ::
        0 <= i < CONSOLE && Zombie(s.table[i]) && s.table[i].pid == pid && s.table[i].state == state
        && s.table[i].code == code
  }

  /** The process `pid` existed and can never be reported again. */
  predicate Spent(s: Sys, pid: nat)
    requires Shape(s)
  {
    1 <= pid < s.nextPid && forall i :: 0 <= i < CONSOLE && !s.table[i].state.Empty? && s.table[i].pid == pid ==>
        s.table[i].waited
  }

  /** Waking and handing over leave ended processes alone, spawning takes other slots. */
  lemma ZombieUntouched(s: Sys, step: Step, i: nat)
    requires Basic(s) && Legal(s, step) && i < CONSOLE && Zombie(s.table[i]) && Do(s, step).1.NoReport?
    ensures Do(s, step).0.table[i] == s.table[i]
  {
    hide PidsOk;
    match step
    case Wait(pid) => BlockSpares(s, OnPid(pid), InWait(pid), i);
    case WaitAny => BlockSpares(s, AnyChild, InWaitAny, i);
    case _ =>
  }

  lemma BlockSpares(s: Sys, target: Target, at: Where, i: nat)
    requires Shape(s) && StatesOk(s) && i < CONSOLE && Zombie(s.table[i])
    ensures var b := Block(s, target, at); SwitchTo(b, NextReady(b.table)).table[i] == s.table[i]
  {
  }

  /** A step reports an ended process with exactly its state and code, or leaves it as it is. */
  lemma EndedStays(s: Sys, step: Step, pid: nat, state: State, code: int)
    requires Basic(s) && Legal(s, step) && Ended(s, pid, state, code)
    ensures var (s', r) := Do(s, step);
      if r.Report? && r.pid == pid then r.state == state && r.code == code else Ended(s', pid, state, code)
  {
    var i: nat :| i < CONSOLE && Zombie(s.table[i]) && s.table[i].pid == pid && s.table[i].state == state
        && s.table[i].code == code;
    var (s', r) := Do(s, step);
    if r.NoReport? {
      ZombieUntouched(s, step, i);
      assert s'.table[i] == s.table[i];
    } else {
      ReportIs(s, step);
      var z: nat :| z < CONSOLE && Zombie(s.table[z]) && s.table[z].pid == r.pid && (s', r) == Reaped(s, z);
      if z != i {
        assert s'.table[i] == s.table[i];
      }
    }
  }

  /** Reports come from reaping. */
  lemma ReportIs(s: Sys, step: Step)
    requires Basic(s) && Legal(s, step) && Do(s, step).1.Report?
    ensures exists z: nat ::
      z < CONSOLE && Zombie(s.table[z]) && s.table[z].pid == Do(s, step).1.pid && Do(s, step) == Reaped(s, z)
  {
    match step
    case Wait(pid) =>
      var z := First(s.table, (p: Process) => p.pid == pid && Zombie(p), 0);
      assert Do(s, step) == Reaped(s, z);
    case Collect(pid) =>
      var z := First(s.table, (p: Process) => p.pid == pid && Zombie(p), 0);
      assert Do(s, step) == Reaped(s, z);
    case WaitAny =>
      var me := PidOf(s, s.current);
      var z := First(s.table, (p: Process) => p.parent == me && Zombie(p), 0);
      assert Do(s, step) == Reaped(s, z);
    case _ =>
  }

  /** Once reported, always spent. */
  lemma ReportSpends(s: Sys, step: Step)
    requires Basic(s) && Legal(s, step) && Do(s, step).1.Report?
    ensures Spent(Do(s, step).0, Do(s, step).1.pid)
  {
    ReportIs(s, step);
    var z: nat :| z < CONSOLE && Zombie(s.table[z]) && Do(s, step) == Reaped(s, z);
    forall i: nat | i < CONSOLE && !s.table[i].state.Empty? && s.table[i].pid == s.table[z].pid ensures i == z {
      OnlyOneWith(s, s.table[z].pid, i, z);
    }
  }

  /** Slots keep their process, and its report, until a spawn takes them over. */
  ghost predicate SlotsStay(s: Sys, s': Sys)
    requires Shape(s) && Shape(s')
  {
    s'.nextPid == s.nextPid && forall i :: 0 <= i < CONSOLE ==>
      && s'.table[i].pid == s.table[i].pid && s'.table[i].parent == s.table[i].parent
      && s'.table[i].state.Empty? == s.table[i].state.Empty?
      && (s.table[i].waited ==> s'.table[i].waited)
  }

  lemma NoSpawn(s: Sys, step: Step)
    requires Basic(s) && Legal(s, step) && !step.Spawn? && !step.Missing?
    ensures SlotsStay(s, Do(s, step).0)
  {
    hide SlotsStay, ExitStep, TickStep, Reaped, Block, SwitchTo, Zombie, PidsOk;
    match step
    case Exit(code) =>
      ExitStays(s, code);
    case Tick =>
      TickStays(s);
    case Wait(pid) =>
      RoundStays(s, OnPid(pid), InWait(pid));
    case WaitAny =>
      RoundStays(s, AnyChild, InWaitAny);
    case Collect(pid) =>
      RoundStays(s, NoTarget, InProgram);
    case _ =>
  }

  lemma ExitStays(s: Sys, code: int)
    requires Basic(s) && s.current < CONSOLE
    ensures SlotsStay(s, ExitStep(s, code))
  {
    assert SlotsStay(s, Buried(s, code));
  }

  lemma TickStays(s: Sys)
    requires Basic(s)
    ensures SlotsStay(s, TickStep(s))
  {
  }

  lemma RoundStays(s: Sys, target: Target, at: Where)
    requires Shape(s) && StatesOk(s)
    ensures var b := Block(s, target, at); SlotsStay(s, SwitchTo(b, NextReady(b.table)))
    ensures forall z: nat :: z < CONSOLE && Zombie(s.table[z]) ==> SlotsStay(s, Reaped(s, z).0)
    ensures SlotsStay(s, s) && SlotsStay(s, s.(at := s.at[s.current := InProgram]))
  {
  }

  lemma SpawnTakes(s: Sys, step: Step)
    requires Basic(s) && Legal(s, step) && (step.Spawn? || step.Missing?)
    ensures Do(s, step).0.nextPid == s.nextPid + 1
    ensures forall i :: 0 <= i < CONSOLE ==>
      Do(s, step).0.table[i] == s.table[i] || Do(s, step).0.table[i].pid == s.nextPid
  {
  }

  lemma SpentStays(s: Sys, step: Step, pid: nat)
    requires Basic(s) && Legal(s, step) && Spent(s, pid)
    ensures Spent(Do(s, step).0, pid) && (Do(s, step).1.Report? ==> Do(s, step).1.pid != pid)
  {
    if step.Spawn? || step.Missing? {
      SpawnTakes(s, step);
    } else {
      NoSpawn(s, step);
    }
    if Do(s, step).1.Report? {
      ReportIs(s, step);
    }
  }

  // ---- Whole runs ----

  ghost predicate LegalRun(s: Sys, steps: seq<Step>)
    requires Shape(s)
    decreases |steps|
  {
    steps != [] ==> Legal(s, steps[0]) && LegalRun(Do(s, steps[0]).0, steps[1..])
  }

  ghost function Run(s: Sys, steps: seq<Step>): (r: Sys)
    requires Shape(s) && LegalRun(s, steps)
    ensures Shape(r)
    decreases |steps|
  {
    if steps == [] then s else Run(Do(s, steps[0]).0, steps[1..])
  }

  /** What the waits of a run reported, in order. */
  ghost function Reports(s: Sys, steps: seq<Step>): seq<Report>
    requires Shape(s) && LegalRun(s, steps)
    decreases |steps|
  {
    if steps == [] then []
    else
      var (s', r) := Do(s, steps[0]);
      (if r.Report? then [r] else []) + Reports(s', steps[1..])
  }

  /** A run in which every wait names the caller's own unreported child. */
  ghost predicate PoliteRun(s: Sys, steps: seq<Step>)
    requires Shape(s) && LegalRun(s, steps)
    decreases |steps|
  {
    steps != [] ==> Polite(s, steps[0]) && PoliteRun(Do(s, steps[0]).0, steps[1..])
  }

  predicate Mentions(reports: seq<Report>, pid: nat) {
    exists i :: 0 <= i < |reports| && reports[i].Report? && reports[i].pid == pid
  }

  /** No process is reported twice. */
  predicate NoRepeat(reports: seq<Report>) {
    && (forall i :: 0 <= i < |reports| ==> reports[i].Report?)
    && (forall i, j :: 0 <= i < j < |reports| ==> reports[i].pid != reports[j].pid)
  }

  lemma {:induction false} RunKeeps(s: Sys, steps: seq<Step>)
    requires Inv(s) && LegalRun(s, steps) && PoliteRun(s, steps)
    ensures Inv(Run(s, steps))
    decreases |steps|
  {
    if steps != [] {
      StepKeeps(s, steps[0]);
      RunKeeps(Do(s, steps[0]).0, steps[1..]);
    }
  }

  lemma {:induction false} RunKeepsBasic(s: Sys, steps: seq<Step>)
    requires Basic(s) && LegalRun(s, steps)
    ensures Basic(Run(s, steps))
    decreases |steps|
  {
    if steps != [] {
      StepKeepsBasic(s, steps[0]);
      RunKeepsBasic(Do(s, steps[0]).0, steps[1..]);
    }
  }

  /** In every state that can be reached, a blocked process means one that can run, and live processes have
      their own numbers. */
  lemma AlwaysSomeoneRuns(steps: seq<Step>, i: nat) returns (j: nat)
    requires LegalRun(START, steps) && PoliteRun(START, steps) && i < CONSOLE
    requires Run(START, steps).table[i].state.Blocked?
    ensures j < CONSOLE && (Run(START, steps).table[j].state.Ready? || Run(START, steps).table[j].state.Running?)
  {
    StartInv();
    RunKeeps(START, steps);
    j := DeadlockFree(Run(START, steps), i);
  }

  /** A spent number never appears in a report again. */
  lemma {:induction false} NeverAgain(s: Sys, steps: seq<Step>, pid: nat)
    requires Basic(s) && LegalRun(s, steps) && Spent(s, pid)
    ensures !Mentions(Reports(s, steps), pid)
    decreases |steps|
  {
    if steps != [] {
      SpentStays(s, steps[0], pid);
      StepKeepsBasic(s, steps[0]);
      NeverAgain(Do(s, steps[0]).0, steps[1..], pid);
    }
  }

  /** No process is reported twice. */
  lemma {:induction false} ReportedOnce(s: Sys, steps: seq<Step>)
    requires Basic(s) && LegalRun(s, steps)
    ensures NoRepeat(Reports(s, steps))
    decreases |steps|
  {
    if steps != [] {
      var (s', r) := Do(s, steps[0]);
      StepKeepsBasic(s, steps[0]);
      ReportedOnce(s', steps[1..]);
      if r.Report? {
        ReportSpends(s, steps[0]);
        NeverAgain(s', steps[1..], r.pid);
      }
    }
  }

  /** The status a process ended with is what its report says; until then it stays in the table. */
  lemma {:induction false} StatusKept(s: Sys, steps: seq<Step>, pid: nat, state: State, code: int)
    requires Basic(s) && LegalRun(s, steps) && Ended(s, pid, state, code)
    ensures forall r :: r in Reports(s, steps) && r.Report? && r.pid == pid ==> r == Report(pid, state, code)
    ensures !Mentions(Reports(s, steps), pid) ==> Ended(Run(s, steps), pid, state, code)
    decreases |steps|
  {
    if steps != [] {
      var (s', r) := Do(s, steps[0]);
      StepKeepsBasic(s, steps[0]);
      EndedStays(s, steps[0], pid, state, code);
      if r.Report? && r.pid == pid {
        ReportSpends(s, steps[0]);
        NeverAgain(s', steps[1..], pid);
        assert Reports(s, steps)[0] == r;
      } else {
        StatusKept(s', steps[1..], pid, state, code);
        LaterReports(s, steps, pid);
      }
    }
  }

  lemma LaterReports(s: Sys, steps: seq<Step>, pid: nat)
    requires Shape(s) && steps != [] && LegalRun(s, steps)
    ensures Mentions(Reports(Do(s, steps[0]).0, steps[1..]), pid) ==> Mentions(Reports(s, steps), pid)
  {
    var later, all := Reports(Do(s, steps[0]).0, steps[1..]), Reports(s, steps);
    if Mentions(later, pid) {
      var i :| 0 <= i < |later| && later[i].Report? && later[i].pid == pid;
      assert all[|all| - |later| + i] == later[i];
    }
  }

  /** Exit status, end to end: whatever runs after an exit, the process is reported at most once, with the code
      it exited with, and is still there to be reported if it was not. */
  lemma ExitDelivered(s: Sys, code: int, steps: seq<Step>)
    requires Basic(s) && Legal(s, Exit(code)) && LegalRun(Do(s, Exit(code)).0, steps)
    ensures var (pid, s') := (s.table[s.current].pid, Do(s, Exit(code)).0);
      && (forall r :: r in Reports(s', steps) && r.Report? && r.pid == pid ==> r == Report(pid, Exited, code))
      && NoRepeat(Reports(s', steps))
      && (!Mentions(Reports(s', steps), pid) ==> Ended(Run(s', steps), pid, Exited, code))
  {
    var (pid, s') := (s.table[s.current].pid, Do(s, Exit(code)).0);
    StepKeepsBasic(s, Exit(code));
    assert s'.table[s.current] == s.table[s.current].(state := Exited, code := code);
    assert Ended(s', pid, Exited, code);
    StatusKept(s', steps, pid, Exited, code);
    ReportedOnce(s', steps);
  }

  /** A parent that waits for an ended child gets the child's status in its next round. */
  lemma WaitDelivers(s: Sys, pid: nat, state: State, code: int)
    requires Basic(s) && Legal(s, Wait(pid)) && Ended(s, pid, state, code)
    ensures Do(s, Wait(pid)).1 == Report(pid, state, code)
  {
    var i: nat :| i < CONSOLE && Zombie(s.table[i]) && s.table[i].pid == pid && s.table[i].state == state
        && s.table[i].code == code;
    var z := First(s.table, (p: Process) => p.pid == pid && Zombie(p), 0);
    OnlyOneWith(s, pid, i, z);
  }

  // ---- Waiting for any number ----

  /** A slot holds the process `pid`, which has not ended or was reported already. */
  ghost predicate Pending(s: Sys, pid: nat)
    requires Shape(s)
  {
    exists i: nat :: i < CONSOLE && HoldsPending(s.table[i], pid)
  }

  predicate HoldsPending(p: Process, pid: nat) {
    p.pid == pid && !p.state.Empty? && !Zombie(p)
  }

  /** One round of a wait for any number, decided by the table alone: an ended and unreported process is reported, a
      number without a slot sends the caller back, and anything else, a live process or one that was reported, keeps it
      in the wait: a process blocked, the console polling. */
  lemma WaitOutcome(s: Sys, pid: nat)
    requires Basic(s) && Legal(s, Wait(pid))
    ensures var (s', r) := Do(s, Wait(pid));
      && (r.Report? <==> exists i: nat :: i < CONSOLE && Zombie(s.table[i]) && s.table[i].pid == pid)
      && (r.Report? ==> Ended(s, pid, r.state, r.code) && s'.current == s.current)
      && (s'.at[s.current] == InWait(pid) <==> Pending(s, pid))
      && (s.current < CONSOLE ==> (s'.table[s.current].state.Blocked? <==> Pending(s, pid)))
      && (s.current < CONSOLE && Pending(s, pid) ==>
            s'.table[s.current].target == OnPid(pid) && s'.current != s.current)
      && (s.current == CONSOLE && Pending(s, pid) ==>
            s' == SwitchTo(s.(at := s.at[CONSOLE := InWait(pid)]), NextReady(s.table)))
      && (r.NoReport? && !Pending(s, pid) ==> s' == s.(at := s.at[s.current := InProgram]))
  {
    hide NextReady;
    var ended := (p: Process) => p.pid == pid && Zombie(p);
    var known := (p: Process) => p.pid == pid && !p.state.Empty?;
    var z, f := First(s.table, ended, 0), First(s.table, known, 0);
    if z == CONSOLE && f < CONSOLE {
      assert HoldsPending(s.table[f], pid);
    }
    if z < CONSOLE {
      EndedNotPending(s, pid, z);
    }
    if s.current < CONSOLE {
      BlockedNotNext(s, OnPid(pid), InWait(pid));
    }
  }

  lemma EndedNotPending(s: Sys, pid: nat, z: nat)
    requires Basic(s) && z < CONSOLE && Zombie(s.table[z]) && s.table[z].pid == pid
    ensures !Pending(s, pid)
  {
    forall i: nat | i < CONSOLE && HoldsPending(s.table[i], pid) ensures i == z {
      OnlyOneWith(s, pid, i, z);
    }
  }

  lemma BlockedNotNext(s: Sys, target: Target, at: Where)
    requires Basic(s) && s.current < CONSOLE
    ensures var b := Block(s, target, at); var s' := SwitchTo(b, NextReady(b.table));
      s'.current != s.current && s'.table[s.current] == s.table[s.current].(target := target, state := Blocked)
  {
  }

  /** The step is the exit of process `pid`. */
  predicate ExitOf(s: Sys, step: Step, pid: nat)
    requires Shape(s)
  {
    step.Exit? && s.current < CONSOLE && s.table[s.current].pid == pid
  }

  /** A process blocked on a number is woken exactly by the exit of that process. */
  lemma WokenByExit(s: Sys, step: Step, i: nat, pid: nat)
    requires Basic(s) && Legal(s, step) && i < CONSOLE && s.table[i].state.Blocked? && s.table[i].target == OnPid(pid)
    ensures var s' := Do(s, step).0;
      if ExitOf(s, step, pid) then s'.table[i].state.Ready? || s'.table[i].state.Running?
      else s'.table[i] == s.table[i] && s'.at[i] == s.at[i] && s'.current != i
  {
    hide PidsOk;
    if step.Exit? {
      ExitWakes(s, step.code, i);
    } else {
      OnlyExitWakes(s, step, i);
    }
  }

  lemma ExitWakes(s: Sys, code: int, i: nat)
    requires Basic(s) && Legal(s, Exit(code)) && i < CONSOLE && s.table[i].state.Blocked?
    ensures var s' := ExitStep(s, code);
      if s.table[i].target in {OnPid(s.table[s.current].pid), AnyChild}
      then s'.table[i].state.Ready? || s'.table[i].state.Running?
      else s'.table[i] == s.table[i] && s'.at[i] == s.at[i] && s'.current != i
  {
    hide PidsOk;
  }

  /** A blocked process stays as it is in every step but an exit. */
  lemma OnlyExitWakes(s: Sys, step: Step, i: nat)
    requires Basic(s) && Legal(s, step) && i < CONSOLE && s.table[i].state.Blocked? && !step.Exit?
    ensures var s' := Do(s, step).0; s'.table[i] == s.table[i] && s'.at[i] == s.at[i] && s'.current != i
  {
    hide PidsOk;
    match step
    case Wait(p) => BlockLeaves(s, OnPid(p), InWait(p), i);
    case WaitAny => BlockLeaves(s, AnyChild, InWaitAny, i);
    case _ =>
  }

  lemma BlockLeaves(s: Sys, target: Target, at: Where, i: nat)
    requires Shape(s) && StatesOk(s) && i < CONSOLE && s.table[i].state.Blocked?
    ensures var b := Block(s, target, at); var s' := SwitchTo(b, NextReady(b.table));
      s'.table[i] == s.table[i] && (i != s.current ==> s'.at[i] == s.at[i]) && s'.current != i
  {
  }

  /** No step of the run is the exit of process `pid`. */
  ghost predicate NoExitOf(s: Sys, steps: seq<Step>, pid: nat)
    requires Shape(s) && LegalRun(s, steps)
    decreases |steps|
  {
    steps != [] ==> !ExitOf(s, steps[0], pid) && NoExitOf(Do(s, steps[0]).0, steps[1..], pid)
  }

  /** Over any run without that exit the process stays blocked and never runs. */
  lemma {:induction false} BlockedUntilExit(s: Sys, steps: seq<Step>, i: nat, pid: nat)
    requires Basic(s) && LegalRun(s, steps) && i < CONSOLE && s.table[i].state.Blocked?
    requires s.table[i].target == OnPid(pid)
    requires NoExitOf(s, steps, pid) && s.current != i
    ensures Run(s, steps).table[i] == s.table[i] && Run(s, steps).at[i] == s.at[i] && Run(s, steps).current != i
    decreases |steps|
  {
    if steps != [] {
      StepKeepsBasic(s, steps[0]);
      WokenByExit(s, steps[0], i, pid);
      BlockedUntilExit(Do(s, steps[0]).0, steps[1..], i, pid);
    }
  }

  /** A process that was reported cannot exit any more. */
  lemma {:induction false} SpentNeverExits(s: Sys, steps: seq<Step>, pid: nat)
    requires Basic(s) && LegalRun(s, steps) && Spent(s, pid)
    ensures NoExitOf(s, steps, pid)
    decreases |steps|
  {
    if steps != [] {
      StepKeepsBasic(s, steps[0]);
      SpentStays(s, steps[0], pid);
      SpentNeverExits(Do(s, steps[0]).0, steps[1..], pid);
    }
  }

  /** Waiting for a number that was already reported, while its slot is not taken over, never returns: in every run that
      follows a process that called stays blocked, the console stays in its wait, and no wait ever reports the number.
      If the slot was taken over, the wait returns at once. */
  lemma SpentWaitHangs(s: Sys, pid: nat, steps: seq<Step>)
    requires Basic(s) && Legal(s, Wait(pid)) && Spent(s, pid)
    requires LegalRun(Do(s, Wait(pid)).0, steps)
    ensures var s' := Do(s, Wait(pid)).0;
      && Do(s, Wait(pid)).1.NoReport? && !Mentions(Reports(s', steps), pid)
      && (s'.at[s.current] == InWait(pid) <==> Held(s, pid))
      && (s'.at[s.current] == InWait(pid) ==>
            if s.current < CONSOLE then
              s'.table[s.current].state.Blocked? && Run(s', steps).table[s.current] == s'.table[s.current]
              && Run(s', steps).current != s.current
            else Run(s', steps).at[CONSOLE] == InWait(pid))
  {
    hide Spent, Reports, Run;
    var s' := Do(s, Wait(pid)).0;
    WaitOutcome(s, pid);
    SpentSlots(s, pid);
    StepKeepsBasic(s, Wait(pid));
    SpentStays(s, Wait(pid), pid);
    NeverAgain(s', steps, pid);
    SpentNeverExits(s', steps, pid);
    if s'.at[s.current] == InWait(pid) {
      if s.current < CONSOLE {
        BlockedUntilExit(s', steps, s.current, pid);
      } else {
        ConsoleStays(s', steps, pid);
      }
    }
  }

  /** The console stays in a wait for a number that was reported, */
  lemma {:induction false} ConsoleStays(s: Sys, steps: seq<Step>, pid: nat)
    requires Basic(s) && LegalRun(s, steps) && s.at[CONSOLE] == InWait(pid) && Spent(s, pid)
    ensures Run(s, steps).at[CONSOLE] == InWait(pid)
    decreases |steps|
  {
    if steps != [] {
      StepKeepsBasic(s, steps[0]);
      SpentStays(s, steps[0], pid);
      ConsolePolls(s, steps[0], pid);
      ConsoleStays(Do(s, steps[0]).0, steps[1..], pid);
    }
  }

  lemma ConsolePolls(s: Sys, step: Step, pid: nat)
    requires Basic(s) && Legal(s, step) && s.at[CONSOLE] == InWait(pid) && Spent(s, pid)
    ensures Do(s, step).0.at[CONSOLE] == InWait(pid)
    ensures s.current == CONSOLE && NextReady(s.table) == CONSOLE ==> Do(s, step) == (s, NoReport)
  {
    hide NextReady;
    if s.current == CONSOLE {
      assert step == Wait(pid);
      WaitOutcome(s, pid);
      SpentSlots(s, pid);
      assert s.at[CONSOLE := InWait(pid)] == s.at;
    }
  }

  /** and once no process is ready, polling changes nothing any more: the machine stands still. */
  lemma {:induction false} ConsolePollsForever(s: Sys, steps: seq<Step>, pid: nat)
    requires Basic(s) && LegalRun(s, steps) && s.at[CONSOLE] == InWait(pid) && Spent(s, pid)
    requires s.current == CONSOLE && forall i :: 0 <= i < CONSOLE ==> !s.table[i].state.Ready?
    ensures Run(s, steps) == s
    decreases |steps|
  {
    if steps != [] {
      ConsolePolls(s, steps[0], pid);
      ConsolePollsForever(s, steps[1..], pid);
    }
  }

  lemma SpentSlots(s: Sys, pid: nat)
    requires Basic(s) && Spent(s, pid)
    ensures forall i :: 0 <= i < CONSOLE && HoldsNumber(s.table[i], pid) ==> HoldsPending(s.table[i], pid)
    ensures Held(s, pid) <==> Pending(s, pid)
  {
  }

  /** Waits that are not for an own child can block a process for ever: for instance one for its own number. */
  lemma SelfWaitHangs(s: Sys, steps: seq<Step>)
    requires Basic(s) && s.current < CONSOLE && Legal(s, Wait(s.table[s.current].pid))
    requires LegalRun(Do(s, Wait(s.table[s.current].pid)).0, steps)
    ensures var s' := Do(s, Wait(s.table[s.current].pid)).0;
      s'.table[s.current].state.Blocked? && Run(s', steps).table[s.current] == s'.table[s.current]
  {
    hide Run;
    var pid := s.table[s.current].pid;
    assert HoldsPending(s.table[s.current], pid);
    WaitOutcome(s, pid);
    StepKeepsBasic(s, Wait(pid));
    BlockedNotNext(s, OnPid(pid), InWait(pid));
    SelfNeverExits(Do(s, Wait(pid)).0, steps, s.current, pid);
    BlockedUntilExit(Do(s, Wait(pid)).0, steps, s.current, pid);
  }

  lemma {:induction false} SelfNeverExits(s: Sys, steps: seq<Step>, i: nat, pid: nat)
    requires Basic(s) && LegalRun(s, steps) && i < CONSOLE && s.current != i
    requires s.table[i].pid == pid && s.table[i].state.Blocked? && s.table[i].target == OnPid(pid)
    ensures NoExitOf(s, steps, pid)
    decreases |steps|
  {
    if steps != [] {
      if s.current < CONSOLE && s.table[s.current].pid == pid {
        OnlyOneWith(s, pid, i, s.current);
      }
      StepKeepsBasic(s, steps[0]);
      WokenByExit(s, steps[0], i, pid);
      SelfNeverExits(Do(s, steps[0]).0, steps[1..], i, pid);
    }
  }

  // ---- What the console does after its wait ----

  /** run_program marks the slot it started its program in, whatever that slot holds by then. */
  function Marked(s: Sys, slot: nat): (r: Sys)
    requires Shape(s) && slot < CONSOLE
    ensures Shape(r)
  {
    s.(table := s.table[slot := s.table[slot].(waited := true)], at := s.at[CONSOLE := InProgram])
  }

  /** As long as a slot has the console's number it is the slot the program was started in, */
  lemma {:induction false} SameSlot(s: Sys, steps: seq<Step>, slot: nat, pid: nat)
    requires Basic(s) && LegalRun(s, steps) && slot < CONSOLE && 1 <= pid < s.nextPid
    requires forall i :: 0 <= i < CONSOLE && HoldsNumber(s.table[i], pid) ==> i == slot
    ensures forall i :: 0 <= i < CONSOLE && HoldsNumber(Run(s, steps).table[i], pid) ==> i == slot
    decreases |steps|
  {
    if steps != [] {
      if steps[0].Spawn? || steps[0].Missing? {
        SpawnTakes(s, steps[0]);
      } else {
        NoSpawn(s, steps[0]);
      }
      StepKeepsBasic(s, steps[0]);
      SameSlot(Do(s, steps[0]).0, steps[1..], slot, pid);
    }
  }

  /** so after a report the mark changes nothing. */
  lemma MarkAfterReport(s: Sys, slot: nat, pid: nat)
    requires Basic(s) && s.current == CONSOLE && Legal(s, Wait(pid)) && slot < CONSOLE
    requires HoldsNumber(s.table[slot], pid) && Do(s, Wait(pid)).1.Report?
    ensures Marked(Do(s, Wait(pid)).0, slot) == Do(s, Wait(pid)).0
  {
    var z := First(s.table, (p: Process) => p.pid == pid && Zombie(p), 0);
    OnlyOneWith(s, pid, slot, z);
    var s' := Reaped(s, z).0;
    assert s'.table[slot := s'.table[slot].(waited := true)] == s'.table;
    assert s'.at[CONSOLE := InProgram] == s'.at;
  }

  /** When the console's number is gone, its slot was taken over by another process, and the mark falls on that one. It
      changes the table exactly if that process was not reported yet, and leaves the table in order exactly if that
      process is not alive; if it has ended it is then never reported. */
  lemma MarkOnAnother(s: Sys, slot: nat, pid: nat, steps: seq<Step>)
    requires Basic(s) && s.current == CONSOLE && s.at[CONSOLE] == InWait(pid) && slot < CONSOLE && !Held(s, pid)
    requires !s.table[slot].state.Empty?
    ensures WaitStep(s, pid) == (s.(at := s.at[CONSOLE := InProgram]), NoReport)
    ensures Marked(s, slot).table == s.table <==> s.table[slot].waited
    ensures Basic(Marked(s, slot)) <==> !Live(s.table[slot])
    ensures !Live(s.table[slot]) && LegalRun(Marked(s, slot), steps) ==>
      !Mentions(Reports(Marked(s, slot), steps), s.table[slot].pid)
  {
    hide Reports, Run;
    assert forall i :: 0 <= i < CONSOLE ==> !HoldsNumber(s.table[i], pid);
    var m := Marked(s, slot);
    assert m.table[slot] == s.table[slot].(waited := true);
    if !Live(s.table[slot]) {
      MarkedBasic(s, slot);
      if LegalRun(m, steps) {
        NeverAgain(m, steps, s.table[slot].pid);
      }
    }
  }

  lemma MarkedBasic(s: Sys, slot: nat)
    requires Basic(s) && slot < CONSOLE && !Live(s.table[slot]) && !s.table[slot].state.Empty?
    ensures Basic(Marked(s, slot)) && Spent(Marked(s, slot), s.table[slot].pid)
  {
    forall i | 0 <= i < CONSOLE && !s.table[i].state.Empty? && s.table[i].pid == s.table[slot].pid ensures i == slot {
      OnlyOneWith(s, s.table[slot].pid, i, slot);
    }
  }

  lemma {:induction false} OneStepMore(s: Sys, steps: seq<Step>, step: Step)
    requires Shape(s) && LegalRun(s, steps) && Legal(Run(s, steps), step)
    ensures LegalRun(s, steps + [step]) && Run(s, steps + [step]) == Do(Run(s, steps), step).0
    decreases |steps|
  {
    if steps == [] {
      assert [] + [step] == [step] && [step][1..] == [];
    } else {
      OneStepMore(Do(s, steps[0]).0, steps[1..], step);
      assert (steps + [step])[1..] == steps[1..] + [step];
    }
  }

  predicate RestEmpty(s: Sys, n: nat)
    requires Shape(s)
  {
    forall i :: n <= i < CONSOLE ==> s.table[i].state.Empty?
  }

  /** The console has started number 1 in slot 0 and waits for it; the other slots are empty. */
  ghost predicate Launched(s: Sys) {
    && Shape(s) && s.current == 0 && s.nextPid == 2 && s.at[CONSOLE] == InWait(1) && s.at[0].InProgram?
    && s.table[0] == Process(1, 0, false, Running, 0, NoTarget) && RestEmpty(s, 1)
  }

  /** Number 1 has started number 2, which waits for its parent. */
  ghost predicate Asking(s: Sys) {
    && Shape(s) && s.current == 0 && s.nextPid == 3 && s.at[CONSOLE] == InWait(1) && s.at[0].InProgram?
    && s.at[1] == InWait(1) && s.table[0] == Process(1, 0, false, Running, 0, NoTarget)
    && s.table[1] == Process(2, 1, false, Blocked, 0, OnPid(1)) && RestEmpty(s, 2)
  }

  /** Number 2 has taken the report of number 1, and `n` of its spawns failed. */
  ghost predicate Borrowed(s: Sys, n: nat) {
    && Shape(s) && s.current == 1 && s.nextPid == n + 3 && s.at[CONSOLE] == InWait(1) && s.at[1].InProgram?
    && s.table[0] == Process(1, 0, true, Exited, 0, NoTarget)
    && s.table[1] == Process(2, 1, false, Running, 0, NoTarget) && RestEmpty(s, n + 2)
    && forall i :: 2 <= i < CONSOLE && i < n + 2 ==> s.table[i] == Process(i + 1, 2, false, Failed, -1, NoTarget)
  }

  lemma Launching() returns (steps: seq<Step>)
    ensures LegalRun(START, steps) && Launched(Run(START, steps))
  {
    steps := [Spawn(true)];
    OneStepMore(START, [], Spawn(true));
    assert [] + steps == steps;
    assert HoldsNumber(Run(START, steps).table[0], 1);
    OneStepMore(START, steps, Wait(1));
    steps := steps + [Wait(1)];
  }

  lemma AskingParent() returns (steps: seq<Step>)
    ensures LegalRun(START, steps) && Asking(Run(START, steps))
  {
    steps := Launching();
    assert Run(START, steps).table[1].state.Empty?;
    OneStepMore(START, steps, Spawn(true));
    steps := steps + [Spawn(true)];
    assert Run(START, steps).table[1] == Process(2, 1, false, Ready, 0, NoTarget);
    OneStepMore(START, steps, Tick);
    steps := steps + [Tick];
    assert Run(START, steps).current == 1 && Run(START, steps).table[0].state.Ready?;
    OneStepMore(START, steps, Wait(1));
    steps := steps + [Wait(1)];
  }

  /** Where an exit leads when only one slot can go on. */
  lemma ExitGoesTo(s: Sys, code: int, j: nat)
    requires Shape(s) && s.current < CONSOLE && j < CONSOLE && j != s.current
    requires WokenOne(s.table[j], s.table[s.current].pid).state.Ready?
    requires forall k :: 0 <= k < CONSOLE && k != j && k != s.current ==>
      !WokenOne(s.table[k], s.table[s.current].pid).state.Ready?
    ensures ExitStep(s, code).current == j
  {
    assert Buried(s, code).table[j].state.Ready?;
  }

  lemma ReportBorrowed() returns (steps: seq<Step>)
    ensures LegalRun(START, steps) && Borrowed(Run(START, steps), 0)
  {
    steps := AskingParent();
    ExitGoesTo(Run(START, steps), 0, 1);
    OneStepMore(START, steps, Exit(0));
    steps := steps + [Exit(0)];
    assert Zombie(Run(START, steps).table[0]);
    OneStepMore(START, steps, Wait(1));
    steps := steps + [Wait(1)];
  }

  lemma {:induction false} SlotsFilled(n: nat) returns (steps: seq<Step>)
    requires n <= PROCESS_COUNT - 2
    ensures LegalRun(START, steps) && Borrowed(Run(START, steps), n)
  {
    if n == 0 {
      steps := ReportBorrowed();
    } else {
      var fewer := SlotsFilled(n - 1);
      var s := Run(START, fewer);
      assert FreeSlot(s.table) == n + 1 by {
        assert s.table[n + 1].state.Empty?;
      }
      OneStepMore(START, fewer, Spawn(false));
      steps := fewer + [Spawn(false)];
    }
  }

  /** Number 17 has taken slot 0 and runs. */
  ghost predicate Taken(s: Sys) {
    && Shape(s) && s.current == 0 && s.at[CONSOLE] == InWait(1) && s.at[0].InProgram? && s.at[1].InProgram?
    && s.table[0] == Process(17, 2, false, Running, 0, NoTarget)
    && s.table[1] == Process(2, 1, false, Ready, 0, NoTarget)
    && forall i :: 2 <= i < CONSOLE ==> s.table[i] == Process(i + 1, 2, false, Failed, -1, NoTarget)
  }

  lemma SlotTaken() returns (steps: seq<Step>)
    ensures LegalRun(START, steps) && Taken(Run(START, steps))
  {
    steps := SlotsFilled(PROCESS_COUNT - 2);
    OneStepMore(START, steps, Spawn(true));
    steps := steps + [Spawn(true)];
    assert Run(START, steps).table[0] == Process(17, 2, false, Ready, 0, NoTarget);
    OneStepMore(START, steps, Tick);
    steps := steps + [Tick];
  }

  /** Number 17 and its parent have ended. */
  ghost predicate Replaced(s: Sys, code: int) {
    && Shape(s) && s.current == CONSOLE && s.at[CONSOLE] == InWait(1)
    && s.table[0] == Process(17, 2, false, Exited, code, NoTarget)
    && forall i :: 1 <= i < CONSOLE ==> s.table[i].pid == i + 1
  }

  lemma SlotReplaced(code: int) returns (steps: seq<Step>)
    ensures LegalRun(START, steps) && Replaced(Run(START, steps), code)
  {
    steps := SlotTaken();
    ExitGoesTo(Run(START, steps), code, 1);
    OneStepMore(START, steps, Exit(code));
    steps := steps + [Exit(code)];
    OneStepMore(START, steps, Exit(0));
    steps := steps + [Exit(0)];
  }

  /** This happens: a program of the console's is reported to another process, its slot goes to number 17, and that one
      ends. The console's wait returns without a report and marks number 17, whose code could be collected before and
      never can be again. */
  lemma MarkTakesReport(code: int) returns (steps: seq<Step>)
    ensures LegalRun(START, steps) && var s := Run(START, steps);
      && Basic(s) && s.current == CONSOLE && s.at[CONSOLE] == InWait(1) && !Held(s, 1)
      && s.table[0].pid == 17 && Ended(s, 17, Exited, code)
      && CollectStep(s.(at := s.at[CONSOLE := InProgram]), 17).1 == Report(17, Exited, code)
      && CollectStep(Marked(s, 0), 17).1 == NoReport
  {
    steps := SlotReplaced(code);
    StartInv();
    RunKeepsBasic(START, steps);
    assert Zombie(Run(START, steps).table[0]);
  }

  // ---- A top-level program that cannot be prepared ----

  /** The console after `n` programs that were found but could not be prepared. */
  function AfterFailedRuns(start: Sys, n: nat): (s: Sys)
    requires Shape(start)
    ensures Shape(s)
  {
    if n == 0 then start else Spawned(AfterFailedRuns(start, n - 1), false).0
  }

  /** The first `n` slots hold failed processes nobody waits for, the others are empty. */
  predicate FilledUpTo(s: Sys, n: nat) {
    && Shape(s) && PidsOk(s) && StatesOk(s) && s.current == CONSOLE && s.nextPid == n + 1 && s.at[CONSOLE].InProgram?
    && forall i :: 0 <= i < CONSOLE ==>
         if i < n then s.table[i] == Process(i + 1, 0, false, Failed, -1, NoTarget) else s.table[i].state.Empty?
  }

  lemma OneMoreFailed(s: Sys, n: nat)
    requires FilledUpTo(s, n) && n < PROCESS_COUNT
    ensures FilledUpTo(Spawned(s, false).0, n + 1)
  {
    assert s.table[n].state.Empty?;
    assert FreeSlot(s.table) == n;
    assert NextPid(n + 1) == n + 2;
    SpawnStates(s, false);
  }

  lemma {:induction false} FailedRuns(n: nat)
    requires n <= PROCESS_COUNT
    ensures FilledUpTo(AfterFailedRuns(START, n), n)
  {
    if n > 0 {
      FailedRuns(n - 1);
      OneMoreFailed(AfterFailedRuns(START, n - 1), n - 1);
    }
  }

  // ---- When a slot is free again ----

  lemma {:induction false} ReportedIsSpent(s: Sys, steps: seq<Step>, pid: nat)
    requires Basic(s) && LegalRun(s, steps)
    ensures Mentions(Reports(s, steps), pid) || Spent(s, pid) ==> Spent(Run(s, steps), pid)
    decreases |steps|
  {
    if steps != [] && (Mentions(Reports(s, steps), pid) || Spent(s, pid)) {
      var (s', r) := Do(s, steps[0]);
      StepKeepsBasic(s, steps[0]);
      if Spent(s, pid) {
        SpentStays(s, steps[0], pid);
      } else if r.Report? && r.pid == pid {
        ReportSpends(s, steps[0]);
      } else {
        MentionedLater(if r.Report? then [r] else [], Reports(s', steps[1..]), pid);
      }
      ReportedIsSpent(s', steps[1..], pid);
    }
  }

  lemma MentionedLater(first: seq<Report>, later: seq<Report>, pid: nat)
    requires Mentions(first + later, pid)
    ensures Mentions(first, pid) || Mentions(later, pid)
  {
    var i :| 0 <= i < |first + later| && (first + later)[i].Report? && (first + later)[i].pid == pid;
    if i >= |first| {
      assert later[i - |first|] == (first + later)[i];
    }
  }

  /** The slot of an ended process keeps it, in every run, exactly as long as no wait reports the number. */
  lemma SlotHeldIff(s: Sys, steps: seq<Step>, i: nat)
    requires Basic(s) && LegalRun(s, steps) && i < CONSOLE && Zombie(s.table[i])
    ensures Run(s, steps).table[i] == s.table[i] <==> !Mentions(Reports(s, steps), s.table[i].pid)
  {
    var pid := s.table[i].pid;
    ReportedIsSpent(s, steps, pid);
    if !Mentions(Reports(s, steps), pid) {
      UnreportedStays(s, steps, i);
    } else if Run(s, steps).table[i] == s.table[i] {
      ZombieNotSpent(Run(s, steps), i);
    }
  }

  lemma ZombieNotSpent(s: Sys, i: nat)
    requires Shape(s) && i < CONSOLE && Zombie(s.table[i])
    ensures !Spent(s, s.table[i].pid)
  {
  }

  lemma {:induction false} UnreportedStays(s: Sys, steps: seq<Step>, i: nat)
    requires Basic(s) && LegalRun(s, steps) && i < CONSOLE && Zombie(s.table[i])
    requires !Mentions(Reports(s, steps), s.table[i].pid)
    ensures Run(s, steps).table[i] == s.table[i]
    decreases |steps|
  {
    if steps != [] {
      var (s', r) := Do(s, steps[0]);
      StepKeepsBasic(s, steps[0]);
      LaterReports(s, steps, s.table[i].pid);
      if r.Report? {
        assert Reports(s, steps)[0] == r;
        ReportIs(s, steps[0]);
      } else {
        ZombieUntouched(s, steps[0], i);
      }
      UnreportedStays(s', steps[1..], i);
    }
  }

  /** A spawn gives no number exactly when the program could not be prepared, or every slot holds a process that is
      alive or was not reported. */
  lemma SpawnFailsIff(s: Sys, prepared: bool)
    requires Basic(s)
    ensures Spawned(s, prepared).1 == -1 <==>
      !prepared || forall i :: 0 <= i < CONSOLE ==> Live(s.table[i]) || Zombie(s.table[i])
  {
    var i := FreeSlot(s.table);
    if i < CONSOLE {
      assert !Live(s.table[i]) && !Zombie(s.table[i]);
    }
  }

  /** A table full of ended processes stays full, and every spawn fails, in every run that reports nothing; */
  lemma TableStaysFull(s: Sys, steps: seq<Step>, prepared: bool)
    requires Basic(s) && LegalRun(s, steps) && Reports(s, steps) == []
    requires forall i :: 0 <= i < CONSOLE ==> Zombie(s.table[i])
    ensures Run(s, steps).table == s.table && Spawned(Run(s, steps), prepared).1 == -1
  {
    forall i | 0 <= i < CONSOLE ensures Run(s, steps).table[i] == s.table[i] {
      SlotHeldIff(s, steps, i);
    }
    RunKeepsBasic(s, steps);
    SpawnFailsIff(Run(s, steps), prepared);
  }

  /** but any one of them can be collected at the console, and then its slot is free for the next program. */
  lemma CollectFreesSlot(s: Sys, i: nat)
    requires Basic(s) && i < CONSOLE && Zombie(s.table[i]) && Legal(s, Collect(s.table[i].pid))
    requires s.nextPid + 1 < PID_SPACE
    ensures var (s', r) := Do(s, Collect(s.table[i].pid));
      && r == Report(s.table[i].pid, s.table[i].state, s.table[i].code)
      && FreeSlot(s'.table) < CONSOLE && Spawned(s', true).1 == s.nextPid
  {
    var ended := (p: Process) => p.pid == s.table[i].pid && Zombie(p);
    var z := First(s.table, ended, 0);
    assert ended(s.table[i]);
    OnlyOneWith(s, s.table[i].pid, i, z);
    StepKeepsBasic(s, Collect(s.table[i].pid));
    assert !Live(Reaped(s, i).0.table[i]) && !Zombie(Reaped(s, i).0.table[i]);
    SpawnFailsIff(Do(s, Collect(s.table[i].pid)).0, true);
  }

  /** Sixteen programs that could not be prepared fill the table: nobody waits for them, so in every run that reports
      none of them no program starts any more, until the console collects one. */
  lemma FailedRunsFillTable(steps: seq<Step>, prepared: bool, pid: nat)
    requires LegalRun(AfterFailedRuns(START, PROCESS_COUNT), steps)
    requires Reports(AfterFailedRuns(START, PROCESS_COUNT), steps) == []
    requires 1 <= pid <= PROCESS_COUNT
    ensures Spawned(Run(AfterFailedRuns(START, PROCESS_COUNT), steps), prepared).1 == -1
    ensures var s := AfterFailedRuns(START, PROCESS_COUNT);
      Legal(s, Collect(pid)) && Do(s, Collect(pid)).1 == Report(pid, Failed, -1)
          && Spawned(Do(s, Collect(pid)).0, true).1 == s.nextPid
  {
    var s := AfterFailedRuns(START, PROCESS_COUNT);
    FailedRuns(PROCESS_COUNT);
    TableStaysFull(s, steps, prepared);
    CollectFreesSlot(s, pid - 1);
  }
}
