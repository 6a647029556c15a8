/**
 The way of a task through the scheduler, over whole runs on any number of CPUs:
 which tasks there are, on which CPU a task runs next, and that a task that has
 exited runs no more and gives its CPU away.
 */
module TaskJourneys {
  import opened Options
  import opened TaskModel
  import opened TaskPlacement
  import opened TimedWaits
  import opened BlockedTasks

  // ---- Who there is ----

  predicate Spawns(run: seq<Action>, n: nat, t: Task)
    requires n <= |run|
  {
    exists i | 0 <= i < n :: run[i].Spawn? && run[i].t == t
  }

  lemma StepTasks(s: State, a: Action)
    requires Enabled(s, a)
    ensures Next(s, a).tasks.Keys == s.tasks.Keys + if a.Spawn? then {a.t} else {}
  {
    if Waits(a) { WaitTasks(s, a); } else if Wakes(a) { WakeTasks(s, a); }
  }

  lemma WaitTasks(s: State, a: Action)
    requires Enabled(s, a) && Waits(a)
    ensures Next(s, a).tasks.Keys == s.tasks.Keys
  {
  }

  lemma WakeTasks(s: State, a: Action)
    requires Enabled(s, a) && Wakes(a)
    ensures Next(s, a).tasks.Keys == s.tasks.Keys
  {
  }

  /** The tasks are those there were at boot and those that were spawned, and none is ever lost. */
  lemma {:induction false} TasksExactly(trace: seq<State>, run: seq<Action>, boot: Boot, n: nat, t: Task)
    requires IsRun(trace, run, boot) && n <= |run|
    ensures t in trace[n].tasks <==> t in trace[0].tasks || Spawns(run, n, t)
  {
    if n > 0 {
      TasksExactly(trace, run, boot, n - 1, t);
      StepTasks(trace[n - 1], run[n - 1]);
    }
  }

  // ---- Where a task runs ----

  /** The step puts t into the ready queue of the CPU: a wakeup, a new task, or one that has yielded. */
  predicate Enqueues(s: State, a: Action, t: Task, target: Cpu) {
    || (a.WakeInsert? && a.target == target && a.c in s.cpus && s.cpus[a.c].phase.Waking?
        && s.cpus[a.c].phase.task == t)
    || (a.Spawn? && a.t == t && a.target == target)
    || (a.PutPrev? && a.c == target && HasCurrent(s, target) && s.cpus[target].current == t)
  }

  predicate WaitsForCpu(s: State, t: Task, c: Cpu) {
    c in s.cpus && (t in s.cpus[c].ready || s.cpus[c].phase == Switching(t))
  }

  lemma EnqueuedWaits(s: State, a: Action, t: Task, target: Cpu)
    requires Enabled(s, a) && Enqueues(s, a, t, target)
    ensures WaitsForCpu(Next(s, a), t, target)
  {
  }

  lemma SwitchedByItsCpu(s: State, own: Owners, a: Action, t: Task, c: Cpu)
    requires Placed(s, own) && Enabled(s, a) && SwitchesTo(s, a, t) && WaitsForCpu(s, t, c)
    ensures a.c == c
  {
    assert CpuOk(s, own, a.c) && CpuOk(s, own, c);
  }

  lemma PickedByItsCpu(s: State, own: Owners, d: Cpu, t: Task, c: Cpu)
    requires Placed(s, own) && Enabled(s, Pick(d, t)) && c in s.cpus && t in s.cpus[c].ready
    ensures d == c
  {
    assert CpuOk(s, own, c);
    PickedIsReady(s, own, d, t);
  }

  lemma WaitKeepsReady(s: State, a: Action, t: Task, c: Cpu)
    requires Enabled(s, a) && Waits(a) && WaitsForCpu(s, t, c)
    ensures WaitsForCpu(Next(s, a), t, c)
  {
  }

  lemma WakeKeepsReady(s: State, a: Action, t: Task, c: Cpu)
    requires Enabled(s, a) && Wakes(a) && WaitsForCpu(s, t, c)
    ensures WaitsForCpu(Next(s, a), t, c)
  {
  }

  lemma StillWaits(s: State, own: Owners, a: Action, t: Task, c: Cpu)
    requires Placed(s, own) && Enabled(s, a) && WaitsForCpu(s, t, c) && !SwitchesTo(s, a, t)
    ensures WaitsForCpu(Next(s, a), t, c)
  {
    if Waits(a) {
      WaitKeepsReady(s, a, t, c);
    } else if Wakes(a) {
      WakeKeepsReady(s, a, t, c);
    } else if a.Pick? && a.t == t && t in s.cpus[c].ready {
      PickedByItsCpu(s, own, a.c, t, c);
    }
  }

  /** A task runs next on the CPU whose ready queue it was put into. */
  lemma RunsWhereQueued(trace: seq<State>, run: seq<Action>, boot: Boot, b: nat, x: nat, t: Task, target: Cpu)
    requires IsRun(trace, run, boot) && b < x < |run| && Enqueues(trace[b], run[b], t, target)
    requires SwitchesTo(trace[x], run[x], t) && forall i | b < i < x :: !SwitchesTo(trace[i], run[i], t)
    ensures run[x] == Switch(target)
  {
    EnqueuedWaits(trace[b], run[b], t, target);
    for i := b + 1 to x
      invariant WaitsForCpu(trace[i], t, target)
    {
      var own := RunPlaced(trace, run, boot, i);
      StillWaits(trace[i], own, run[i], t, target);
    }
    var own := RunPlaced(trace, run, boot, x);
    SwitchedByItsCpu(trace[x], own, run[x], t, target);
  }

  // ---- Exited tasks ----

  lemma ExitedStays(s: State, own: Owners, a: Action, t: Task)
    requires Placed(s, own) && Enabled(s, a) && t in s.tasks && s.tasks[t].state == Exited
    ensures t in Next(s, a).tasks && Next(s, a).tasks[t].state == Exited
  {
    StepStarts(s, a, t);
    if a.Switch? { PickedStaysReady(s, own, a.c); }
    if a.TimedUntilBlock? { assert CpuOk(s, own, a.c) && TaskOk(s, own, s.cpus[a.c].current); }
  }

  /** An exited task never runs again. */
  lemma ExitedForever(trace: seq<State>, run: seq<Action>, boot: Boot, b: nat, n: nat, t: Task)
    requires IsRun(trace, run, boot) && b < n <= |run| && By(trace[b], run[b], t) && run[b].Exit?
    ensures t in trace[n].tasks && trace[n].tasks[t].state == Exited
  {
    GivingUpStops(trace[b], run[b], t);
    for i := b + 1 to n
      invariant t in trace[i].tasks && trace[i].tasks[t].state == Exited
    {
      var own := RunPlaced(trace, run, boot, i);
      ExitedStays(trace[i], own, run[i], t);
    }
  }

  /** Wherever an exited task is current, its CPU is on the way to another task. */
  ghost predicate GivenUp(s: State, t: Task) {
    && t in s.tasks && s.tasks[t].state == Exited
    && forall c | c in s.cpus && s.cpus[c].current == t :: s.cpus[c].phase == Resched || s.cpus[c].phase.Switching?
  }

  lemma StaysGivenUp(s: State, own: Owners, a: Action, t: Task)
    requires Placed(s, own) && Enabled(s, a) && GivenUp(s, t)
    ensures GivenUp(Next(s, a), t)
  {
    var s' := Next(s, a);
    ExitedStays(s, own, a, t);
    if a.Switch? { PickedStaysReady(s, own, a.c); }
    forall c | c in s'.cpus && s'.cpus[c].current == t
      ensures s'.cpus[c].phase == Resched || s'.cpus[c].phase.Switching?
    {
      SameCpuSet(s, a);
      if a.Tick? || a.c != c { StepIsLocal(s, a, c); }
    }
  }

  lemma SameCpuSet(s: State, a: Action)
    requires Enabled(s, a)
    ensures Next(s, a).cpus.Keys == s.cpus.Keys
  {
    if Waits(a) { WaitCpuSet(s, a); } else if Wakes(a) { WakeCpuSet(s, a); }
  }

  lemma WaitCpuSet(s: State, a: Action)
    requires Enabled(s, a) && Waits(a)
    ensures Next(s, a).cpus.Keys == s.cpus.Keys
  {
  }

  lemma WakeCpuSet(s: State, a: Action)
    requires Enabled(s, a) && Wakes(a)
    ensures Next(s, a).cpus.Keys == s.cpus.Keys
  {
  }

  /** Once an exited task has called resched, no CPU executes it any more. */
  lemma ExitedLeavesItsCpu(trace: seq<State>, run: seq<Action>, boot: Boot, b: nat, n: nat, t: Task, c: Cpu)
    requires IsRun(trace, run, boot) && b < n <= |run| && By(trace[b], run[b], t) && run[b].ExitResched?
    requires HasCurrent(trace[n], c) && trace[n].cpus[c].phase == Home
    ensures trace[n].cpus[c].current != t
  {
    var own := RunPlaced(trace, run, boot, b);
    ReschedGivesUp(trace[b], own, run[b], t);
    for i := b + 1 to n
      invariant GivenUp(trace[i], t)
    {
      own := RunPlaced(trace, run, boot, i);
      StaysGivenUp(trace[i], own, run[i], t);
    }
  }

  lemma ReschedGivesUp(s: State, own: Owners, a: Action, t: Task)
    requires Placed(s, own) && Enabled(s, a) && By(s, a, t) && a.ExitResched?
    ensures GivenUp(Next(s, a), t)
  {
  }
}
