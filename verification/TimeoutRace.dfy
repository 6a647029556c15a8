/**
 With two CPUs a timeout can be lost: a run from boot in which a task that was
 notified once resumes wait_timeout_until on the other CPU, and the timer of
 the first CPU fires between that task's clock check and its change of state.
 */
module TimeoutRace {
  import opened Options
  import opened Traces
  import opened TaskModel
  import opened TimeoutCare

  /** Tasks 0 and 1 are the idle tasks of CPUs 0 and 1; task 2 waits in queue 0 until time 1. */
  function Duo(idle0: TaskInfo, idle1: TaskInfo, waiter: TaskInfo, cpu0: CpuState, cpu1: CpuState,
               queues: map<QueueId, seq<Task>>, locks: map<QueueId, Cpu>, events: set<Event>, now: nat): State
  {
    State(map[0 := idle0, 1 := idle1, 2 := waiter], map[0 := cpu0, 1 := cpu1], queues, locks, events, now, 2)
  }

  const ALARM: Event := Event(1, 1, 2, 0)
  const QUEUED: map<QueueId, seq<Task>> := map[0 := [2]]
  const EMPTIED: map<QueueId, seq<Task>> := map[0 := []]

  function Up(c: Cpu): TaskInfo { TaskInfo(Running, true, false, 0, NoWait, Some(c), 0, 0, 0) }

  function Down(c: Cpu): TaskInfo { TaskInfo(Ready, false, false, 0, NoWait, Some(c), 0, 0, 0) }

  function Waiter(state: TaskState, onCpu: bool, flagged: bool, blocks: nat, wakes: nat, inserts: nat): TaskInfo {
    TaskInfo(state, onCpu, flagged, 1, TimedUntil(0, 1), None, blocks, wakes, inserts)
  }

  function Cpu0(current: Task, phase: Phase): CpuState { CpuState(current, 0, phase, multiset{}) }

  function Cpu1(current: Task, phase: Phase, ready: multiset<Task> := multiset{}): CpuState {
    CpuState(current, 1, phase, ready)
  }

  /** Task 2 runs on CPU 0; CPU 1 is idle. */
  function Start(): State {
    State(map[0 := Down(0), 1 := Up(1), 2 := TaskInfo(Running, true, false, 0, NoWait, None, 0, 0, 0)],
          map[0 := Cpu0(2, Home), 1 := Cpu1(1, Home)], map[], map[], {}, 0, 1)
  }

  // ---- The state before each step: task 2 sets its alarm on CPU 0, blocks, and CPU 0 goes idle ----

  function At1(): State {
    Duo(Down(0), Up(1), Waiter(Running, true, false, 0, 0, 0), Cpu0(2, Home), Cpu1(1, Home), map[], map[], {ALARM}, 0)
  }

  function At2(): State {
    Duo(Down(0), Up(1), Waiter(Running, true, false, 0, 0, 0), Cpu0(2, Checked), Cpu1(1, Home), map[], map[],
        {ALARM}, 0)
  }

  function At3(): State {
    Duo(Down(0), Up(1), Waiter(Blocked, true, false, 1, 0, 0), Cpu0(2, Blocking(0)), Cpu1(1, Home), map[],
        map[0 := 0], {ALARM}, 0)
  }

  function At4(): State {
    Duo(Down(0), Up(1), Waiter(Blocked, true, true, 1, 0, 0), Cpu0(2, Resched), Cpu1(1, Home), QUEUED, map[],
        {ALARM}, 0)
  }

  function At5(): State {
    Duo(Down(0), Up(1), Waiter(Blocked, true, true, 1, 0, 0), Cpu0(2, Switching(0)), Cpu1(1, Home), QUEUED, map[],
        {ALARM}, 0)
  }

  function At6(): State {
    Duo(Up(0), Up(1), Waiter(Blocked, true, true, 1, 0, 0), Cpu0(0, Finishing(2)), Cpu1(1, Home), QUEUED, map[],
        {ALARM}, 0)
  }

  /** CPU 1 notifies task 2 and runs it. */
  function At7(): State {
    Duo(Up(0), Up(1), Waiter(Blocked, false, true, 1, 0, 0), Cpu0(0, Home), Cpu1(1, Home), QUEUED, map[], {ALARM}, 0)
  }

  function At8(): State {
    Duo(Up(0), Up(1), Waiter(Blocked, false, false, 1, 0, 0), Cpu0(0, Home),
        Cpu1(1, Waking(2, Exchange, Some(0))), EMPTIED, map[0 := 1], {ALARM}, 0)
  }

  function At9(): State {
    Duo(Up(0), Up(1), Waiter(Ready, false, false, 1, 1, 0), Cpu0(0, Home), Cpu1(1, Waking(2, Spin, Some(0))),
        EMPTIED, map[0 := 1], {ALARM}, 0)
  }

  function At10(): State {
    Duo(Up(0), Up(1), Waiter(Ready, false, false, 1, 1, 0), Cpu0(0, Home), Cpu1(1, Waking(2, Insert, Some(0))),
        EMPTIED, map[0 := 1], {ALARM}, 0)
  }

  function At11(): State {
    Duo(Up(0), Up(1), Waiter(Ready, false, false, 1, 1, 1), Cpu0(0, Home), Cpu1(1, Home, multiset{2}), EMPTIED,
        map[], {ALARM}, 0)
  }

  function At12(): State {
    Duo(Up(0), Up(1).(state := Ready), Waiter(Ready, false, false, 1, 1, 1), Cpu0(0, Home),
        Cpu1(1, Resched, multiset{2}), EMPTIED, map[], {ALARM}, 0)
  }

  function At13(): State {
    Duo(Up(0), Up(1).(state := Ready), Waiter(Ready, false, false, 1, 1, 1), Cpu0(0, Home), Cpu1(1, Switching(2)),
        EMPTIED, map[], {ALARM}, 0)
  }

  function At14(): State {
    Duo(Up(0), Up(1).(state := Ready), Waiter(Running, true, false, 1, 1, 1), Cpu0(0, Home),
        Cpu1(2, Finishing(1)), EMPTIED, map[], {ALARM}, 0)
  }

  /** Task 2 checks the clock; the time comes; CPU 0 fires the alarm in vain; task 2 blocks. */
  function At15(): State {
    Duo(Up(0), Down(1), Waiter(Running, true, false, 1, 1, 1), Cpu0(0, Home), Cpu1(2, Home), EMPTIED, map[],
        {ALARM}, 0)
  }

  function At16(): State {
    Duo(Up(0), Down(1), Waiter(Running, true, false, 1, 1, 1), Cpu0(0, Home), Cpu1(2, Checked), EMPTIED, map[],
        {ALARM}, 0)
  }

  function At17(): State {
    Duo(Up(0), Down(1), Waiter(Running, true, false, 1, 1, 1), Cpu0(0, Home), Cpu1(2, Checked), EMPTIED, map[],
        {ALARM}, 1)
  }

  function At18(): State {
    Duo(Up(0), Down(1), Waiter(Running, true, false, 1, 1, 1), Cpu0(0, Waking(2, Exchange, None)),
        Cpu1(2, Checked), EMPTIED, map[], {}, 1)
  }

  function At19(): State {
    Duo(Up(0), Down(1), Waiter(Running, true, false, 1, 1, 1), Cpu0(0, Home), Cpu1(2, Checked), EMPTIED, map[], {}, 1)
  }

  function At20(): State {
    Duo(Up(0), Down(1), Waiter(Blocked, true, false, 2, 1, 1), Cpu0(0, Home), Cpu1(2, Blocking(0)), EMPTIED,
        map[0 := 1], {}, 1)
  }

  function At21(): State {
    Duo(Up(0), Down(1), Waiter(Blocked, true, true, 2, 1, 1), Cpu0(0, Home), Cpu1(2, Resched), QUEUED, map[], {}, 1)
  }

  const BOOT: Boot := Boot(map[1 := 1, 2 := 0], map[])

  lemma Step0() ensures Goes(Start(), TimedUntilBegin(0, 0, 1), At1()) {}
  lemma Step1() ensures Goes(At1(), TimedUntilCheck(0), At2()) {}
  lemma Step2() ensures Goes(At2(), TimedUntilBlock(0), At3()) {}
  lemma Step3() ensures Goes(At3(), Push(0), At4())
  {
    assert Queue(At3(), 0) + [2] == [2] && At3().queues[0 := [2]] == QUEUED && At3().locks - {0} == map[];
  }

  lemma Step4() ensures Goes(At4(), Pick(0, 0), At5()) {}
  lemma Step5() ensures Goes(At5(), Switch(0), At6()) {}
  lemma Step6() ensures Goes(At6(), Finish(0), At7()) {}
  lemma Step7() ensures Goes(At7(), Notify(1, 0, 0), At8()) {}
  lemma Step8() ensures Goes(At8(), WakeExchange(1), At9()) {}
  lemma Step9() ensures Goes(At9(), WakeSpinDone(1), At10()) {}
  lemma Step10() ensures Goes(At10(), WakeInsert(1, 1), At11())
  {
    assert multiset{} + multiset{2 as Task} == multiset{2} && At10().locks - {0} == map[];
  }

  lemma Step11() ensures Goes(At11(), Yield(1), At12()) {}
  lemma Step12() ensures Goes(At12(), Pick(1, 2), At13()) {}
  lemma Step13() ensures Goes(At13(), Switch(1), At14()) {}
  lemma Step14() ensures Goes(At14(), Finish(1), At15()) {}
  lemma Step15() ensures Goes(At15(), TimedUntilCheck(1), At16()) {}
  lemma Step16() ensures Goes(At16(), Tick, At17()) {}
  lemma Step17() ensures Goes(At17(), Fire(0, ALARM), At18()) {}
  lemma Step18() ensures Goes(At18(), WakeExchange(0), At19()) {}
  lemma Step19() ensures Goes(At19(), TimedUntilBlock(1), At20()) {}
  lemma Step20() ensures Goes(At20(), Push(1), At21())
  {
    assert Queue(At20(), 0) + [2] == [2] && At20().queues[0 := [2]] == QUEUED
        && At20().locks - {0} == map[];
  }

  /** A run on two CPUs that ends in `s`. */
  ghost predicate Reaches(trace: seq<State>, run: seq<Action>, s: State) {
    IsRun(trace, run, BOOT) && trace[0].cpus.Keys == {0, 1} && trace[|run|] == s
  }

  lemma ExtendOne(trace: seq<State>, run: seq<Action>, s: State, a: Action, s': State)
    returns (trace': seq<State>, run': seq<Action>)
    requires Reaches(trace, run, s) && Goes(s, a, s')
    ensures Reaches(trace', run', s')
  {
    trace', run' := trace + [s'], run + [a];
    LinkedOn(trace, run, a, s', Goes);
    assert trace'[0] == trace[0];
    forall i | 0 <= i < |run'| ensures Enabled(trace'[i], run'[i]) && trace'[i + 1] == Next(trace'[i], run'[i]) {
      assert Goes(trace'[i], run'[i], trace'[i + 1]);
    }
  }

  lemma Extend(trace: seq<State>, run: seq<Action>, s0: State, a0: Action, s1: State, a1: Action, s2: State, a2: Action,
               s3: State) returns (trace': seq<State>, run': seq<Action>)
    requires Reaches(trace, run, s0) && Goes(s0, a0, s1) && Goes(s1, a1, s2) && Goes(s2, a2, s3)
    ensures Reaches(trace', run', s3)
  {
    trace', run' := ExtendOne(trace, run, s0, a0, s1);
    trace', run' := ExtendOne(trace', run', s1, a1, s2);
    trace', run' := ExtendOne(trace', run', s2, a2, s3);
  }

  lemma Part0(trace0: seq<State>, run0: seq<Action>) returns (trace: seq<State>, run: seq<Action>)
    requires Reaches(trace0, run0, Start())
    ensures Reaches(trace, run, At3())
  {
    trace, run := Extend(trace0, run0, Start(), TimedUntilBegin(0, 0, 1), At1(), TimedUntilCheck(0),
                         At2(), TimedUntilBlock(0), At3()) by {
      Step0();
      Step1();
      Step2();
    }
  }

  lemma Part1(trace0: seq<State>, run0: seq<Action>) returns (trace: seq<State>, run: seq<Action>)
    requires Reaches(trace0, run0, At3())
    ensures Reaches(trace, run, At6())
  {
    trace, run := Extend(trace0, run0, At3(), Push(0), At4(), Pick(0, 0),
                         At5(), Switch(0), At6()) by {
      Step3();
      Step4();
      Step5();
    }
  }

  lemma Part2(trace0: seq<State>, run0: seq<Action>) returns (trace: seq<State>, run: seq<Action>)
    requires Reaches(trace0, run0, At6())
    ensures Reaches(trace, run, At9())
  {
    trace, run := Extend(trace0, run0, At6(), Finish(0), At7(), Notify(1, 0, 0),
                         At8(), WakeExchange(1), At9()) by {
      Step6();
      Step7();
      Step8();
    }
  }

  lemma Part3(trace0: seq<State>, run0: seq<Action>) returns (trace: seq<State>, run: seq<Action>)
    requires Reaches(trace0, run0, At9())
    ensures Reaches(trace, run, At12())
  {
    trace, run := Extend(trace0, run0, At9(), WakeSpinDone(1), At10(), WakeInsert(1, 1),
                         At11(), Yield(1), At12()) by {
      Step9();
      Step10();
      Step11();
    }
  }

  lemma Part4(trace0: seq<State>, run0: seq<Action>) returns (trace: seq<State>, run: seq<Action>)
    requires Reaches(trace0, run0, At12())
    ensures Reaches(trace, run, At15())
  {
    trace, run := Extend(trace0, run0, At12(), Pick(1, 2), At13(), Switch(1),
                         At14(), Finish(1), At15()) by {
      Step12();
      Step13();
      Step14();
    }
  }

  lemma Part5(trace0: seq<State>, run0: seq<Action>) returns (trace: seq<State>, run: seq<Action>)
    requires Reaches(trace0, run0, At15())
    ensures Reaches(trace, run, At18())
  {
    trace, run := Extend(trace0, run0, At15(), TimedUntilCheck(1), At16(), Tick,
                         At17(), Fire(0, ALARM), At18()) by {
      Step15();
      Step16();
      Step17();
    }
  }

  lemma Part6(trace0: seq<State>, run0: seq<Action>) returns (trace: seq<State>, run: seq<Action>)
    requires Reaches(trace0, run0, At18())
    ensures Reaches(trace, run, At21())
  {
    trace, run := Extend(trace0, run0, At18(), WakeExchange(0), At19(), TimedUntilBlock(1),
                         At20(), Push(1), At21()) by {
      Step18();
      Step19();
      Step20();
    }
  }

  /** Blocked past the deadline, with no timer event pending and no wakeup under way. */
  ghost predicate Overslept(s: State, t: Task) {
    && t in s.tasks && s.tasks[t].state == Blocked && s.tasks[t].wait.HasDeadline() && s.tasks[t].wait.deadline <= s.now
    && s.events == {} && forall c | c in s.cpus :: !s.cpus[c].phase.Waking?
  }

  lemma OversleptUncared(s: State, t: Task)
    requires Overslept(s, t)
    ensures !AllCared(s)
  {
    assert Sleeps(s.tasks[t]);
  }

  lemma StartTask(t: Task)
    requires t in Start().tasks
    ensures InitTask(Start(), BOOT, t)
  {
  }

  lemma StartCpu(c: Cpu)
    requires c in Start().cpus
    ensures InitCpu(Start(), BOOT, c) && Start().cpus[c].ready == multiset{}
  {
  }

  lemma StartBoots()
    ensures Init(Start(), BOOT) && Start().cpus.Keys == {0, 1}
  {
    var s := Start();
    forall t | t in s.tasks ensures InitTask(s, BOOT, t) { StartTask(t); }
    forall c | c in s.cpus ensures InitCpu(s, BOOT, c) && s.cpus[c].ready == multiset{} { StartCpu(c); }
  }

  lemma EndOversleeps()
    ensures Overslept(At21(), 2)
  {
  }

  lemma WholeRun() returns (trace: seq<State>, run: seq<Action>)
    ensures Reaches(trace, run, At21())
  {
    StartBoots();
    trace, run := [Start()], [];
    trace, run := Part0(trace, run);
    trace, run := Part1(trace, run);
    trace, run := Part2(trace, run);
    trace, run := Part3(trace, run);
    trace, run := Part4(trace, run);
    trace, run := Part5(trace, run);
    trace, run := Part6(trace, run);
  }

  /** A run on two CPUs that ends with a task only a notify could still wake. */
  lemma TimeoutLostOnTwoCpus() returns (trace: seq<State>, run: seq<Action>, boot: Boot)
    ensures IsRun(trace, run, boot) && trace[0].cpus.Keys == {0, 1}
    ensures Overslept(trace[|run|], 2) && !AllCared(trace[|run|])
  {
    boot := BOOT;
    EndOversleeps();
    trace, run := WholeRun();
    OversleptUncared(trace[|run|], 2);
  }
}
