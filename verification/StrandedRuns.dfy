/**
 Two runs on several CPUs that strand a waiter of the mutex: in one a notifier
 of another queue makes its exchange late, in the other a timer callback does
 while every notifier is quick. Both come to the same state, in which a task is
 about to have two entries in the mutex's queue.
 */
module StrandedRuns {
  import opened Options
  import opened Traces
  import opened SleepMutex
  import opened MutexWakers

  const NONE: map<nat, Waker> := map[]
  const QUEUED: map<QueueId, seq<Task>> := map[0 := [2]]
  const EMPTIED: map<QueueId, seq<Task>> := map[0 := []]

  /** Three tasks: 1 holds the mutex first, 2 comes from a timed wait in queue 0, 3 comes last. */
  function Trio(a: TaskInfo, w: TaskInfo, b: TaskInfo, owner: Option<Task>, queue: seq<Task>,
                lock: Option<Task>): State {
    Early(a, w, b, owner, queue, lock, EMPTIED, {}, NONE)
  }

  function Early(a: TaskInfo, w: TaskInfo, b: TaskInfo, owner: Option<Task>, queue: seq<Task>, lock: Option<Task>,
                 others: map<QueueId, seq<Task>>, locks: set<QueueId>, wakers: map<nat, Waker>): State
  {
    State(map[1 := a, 2 := w, 3 := b], owner, queue, lock, others, locks, wakers)
  }

  /** A task at `pc` that is neither blocked nor flagged, and one that is both. */
  function Up(pc: Pc): TaskInfo { TaskInfo(pc, false, false, NoTimer) }

  function Down(pc: Pc): TaskInfo { TaskInfo(pc, true, true, NoTimer) }

  /** Blocked, but not flagged or flagged no more; and flagged, but no longer blocked. */
  function Bare(pc: Pc): TaskInfo { TaskInfo(pc, true, false, NoTimer) }

  function Woken(pc: Pc): TaskInfo { TaskInfo(pc, false, true, NoTimer) }

  /** Task 2 in its wait elsewhere. */
  function Sleeper(blocked: bool, flag: bool, timer: Timer): TaskInfo {
    TaskInfo(Elsewhere(0, false), blocked, flag, timer)
  }

  /** Task 1 takes the mutex; task 2 blocks in queue 0, with a timer. */
  function Begin(k: nat): State {
    match k
    case 0 => Early(Up(Away), Up(Away), Up(Away), None, [], None, map[], {}, NONE)
    case 1 => Early(Up(Try), Up(Away), Up(Away), None, [], None, map[], {}, NONE)
    case 2 => Early(Up(Held), Up(Away), Up(Away), Some(1), [], None, map[], {}, NONE)
    case 3 => Early(Up(Held), TaskInfo(Retry(0, false), false, false, Armed), Up(Away), Some(1), [], None, map[], {},
        NONE)
    case _ => Early(Up(Held), Sleeper(true, true, Armed), Up(Away), Some(1), [], None, QUEUED, {}, NONE)
  }

  /** A notifier has popped task 2 when its timer wakes it. */
  function Popped(k: nat): State {
    var first := map[0 := Waker(2, Some(0))];
    match k
    case 0 => Early(Up(Held), Sleeper(true, false, Armed), Up(Away), Some(1), [], None, EMPTIED, {0}, first)
    case 1 => Early(Up(Held), Sleeper(true, false, Fired), Up(Away), Some(1), [], None, EMPTIED, {0},
        first[1 := Waker(2, None)])
    case _ => Early(Up(Held), Sleeper(false, false, Fired), Up(Away), Some(1), [], None, EMPTIED, {0}, first)
  }

  /** A timer callback has found the ticket of task 2 valid when a notifier wakes it. */
  function Read(k: nat): State {
    var first := map[0 := Waker(2, None)];
    match k
    case 0 => Early(Up(Held), Sleeper(true, true, Fired), Up(Away), Some(1), [], None, QUEUED, {}, first)
    case 1 => Early(Up(Held), Sleeper(true, false, Fired), Up(Away), Some(1), [], None, EMPTIED, {0},
        first[1 := Waker(2, Some(0))])
    case _ => Early(Up(Held), Sleeper(false, false, Fired), Up(Away), Some(1), [], None, EMPTIED, {}, first)
  }

  /** Task 2 returns and blocks on the mutex while the first waker has it in hand. */
  function Return(k: nat, from: Option<QueueId>): State {
    var locks, first := if from.Some? then {from.value} else {}, map[0 := Waker(2, from)];
    match k
    case 0 => Early(Up(Held), Up(Away), Up(Away), Some(1), [], None, EMPTIED, locks, first)
    case 1 => Early(Up(Held), Up(Try), Up(Away), Some(1), [], None, EMPTIED, locks, first)
    case 2 => Early(Up(Held), Up(Check), Up(Away), Some(1), [], None, EMPTIED, locks, first)
    case 3 => Early(Up(Held), Bare(Pushing), Up(Away), Some(1), [], Some(2), EMPTIED, locks, first)
    case _ => Early(Up(Held), Down(Asleep), Up(Away), Some(1), [2], None, EMPTIED, locks, first)
  }

  /** The first waker's exchange has woken task 2. */
  function Tail(k: nat): State {
    match k
    case 0 => Trio(Up(Held), Woken(Asleep), Up(Away), Some(1), [2], None)
    // The mutex is still held: task 2 queues itself a second time.
    case 1 => Trio(Up(Held), Woken(Check), Up(Away), Some(1), [2], None)
    case 2 => Trio(Up(Held), Down(Pushing), Up(Away), Some(1), [2], Some(2))
    case 3 => Trio(Up(Held), Down(Asleep), Up(Away), Some(1), [2, 2], None)
    // Task 3 queues behind it.
    case 4 => Trio(Up(Held), Down(Asleep), Up(Try), Some(1), [2, 2], None)
    case 5 => Trio(Up(Held), Down(Asleep), Up(Check), Some(1), [2, 2], None)
    case 6 => Trio(Up(Held), Down(Asleep), Bare(Pushing), Some(1), [2, 2], Some(3))
    case 7 => Trio(Up(Held), Down(Asleep), Down(Asleep), Some(1), [2, 2, 3], None)
    // The first unlock wakes task 2 and takes one of its two entries.
    case 8 => Trio(Up(Owing), Down(Asleep), Down(Asleep), None, [2, 2, 3], None)
    case 9 => Trio(Up(Away), Up(Asleep), Down(Asleep), None, [2, 3], None)
    // Task 2 finds its flag clear and leaves its second entry behind.
    case 10 => Trio(Up(Away), Up(Check), Down(Asleep), None, [2, 3], None)
    case 11 => Trio(Up(Away), Up(Try), Down(Asleep), None, [2, 3], None)
    // Task 2 takes and releases the mutex; its notify pops its own stale entry.
    case 12 => Trio(Up(Away), Up(Held), Down(Asleep), Some(2), [2, 3], None)
    case 13 => Trio(Up(Away), Up(Owing), Down(Asleep), None, [2, 3], None)
    case _ => Trio(Up(Away), Up(Away), Down(Asleep), None, [3], None)
  }

  lemma Begin0() ensures Goes(Begin(0), Lock(1), Begin(1)) {}
  lemma Begin1() ensures Goes(Begin(1), Acquire(1), Begin(2)) {}
  lemma Begin2() ensures Goes(Begin(2), OtherWait(2, 0, true), Begin(3)) {}
  lemma Begin3() ensures Goes(Begin(3), OtherBlock(2), Begin(4)) { assert Other(Begin(3), 0) + [2] == [2]; }
  lemma Pop0() ensures Goes(Begin(4), OtherPop(0, 0, 0), Popped(0)) {}
  lemma Pop1() ensures Goes(Popped(0), TimerRead(2, 1), Popped(1)) {}
  lemma Pop2() ensures Goes(Popped(1), Exchange(1), Popped(2)) {}
  lemma Pop3() ensures Goes(Popped(2), OtherReturn(2), Return(0, Some(0))) {}
  lemma Read0() ensures Goes(Begin(4), TimerRead(2, 0), Read(0)) {}
  lemma Read1() ensures Goes(Read(0), OtherPop(0, 0, 1), Read(1)) {}
  lemma Read2() ensures Goes(Read(1), Exchange(1), Read(2)) {}
  lemma Read3() ensures Goes(Read(2), OtherReturn(2), Return(0, None)) {}
  lemma Return0(from: Option<QueueId>) ensures Goes(Return(0, from), Lock(2), Return(1, from)) {}
  lemma Return1(from: Option<QueueId>) ensures Goes(Return(1, from), Miss(2), Return(2, from)) {}
  lemma Return2(from: Option<QueueId>) ensures Goes(Return(2, from), Look(2), Return(3, from)) {}
  lemma Return3(from: Option<QueueId>) ensures Goes(Return(3, from), Push(2), Return(4, from)) {}
  lemma Return4(from: Option<QueueId>) ensures Goes(Return(4, from), Exchange(0), Tail(0)) {}
  lemma Tail0() ensures Goes(Tail(0), Resume(2), Tail(1)) {}
  lemma Tail1() ensures Goes(Tail(1), Look(2), Tail(2)) {}
  lemma Tail2() ensures Goes(Tail(2), Push(2), Tail(3)) {}
  lemma Tail3() ensures Goes(Tail(3), Lock(3), Tail(4)) {}
  lemma Tail4() ensures Goes(Tail(4), Miss(3), Tail(5)) {}
  lemma Tail5() ensures Goes(Tail(5), Look(3), Tail(6)) {}
  lemma Tail6() ensures Goes(Tail(6), Push(3), Tail(7)) {}
  lemma Tail7() ensures Goes(Tail(7), Unlock(1), Tail(8)) {}
  lemma Tail8() ensures Goes(Tail(8), Notify(1), Tail(9)) {}
  lemma Tail9() ensures Goes(Tail(9), Resume(2), Tail(10)) {}
  lemma Tail10() ensures Goes(Tail(10), Look(2), Tail(11)) {}
  lemma Tail11() ensures Goes(Tail(11), Acquire(2), Tail(12)) {}
  lemma Tail12() ensures Goes(Tail(12), Unlock(2), Tail(13)) {}
  lemma Tail13() ensures Goes(Tail(13), Notify(2), Tail(14)) {}

  ghost predicate Reaches(trace: seq<State>, run: seq<Action>, s: State) {
    IsRun(trace, run) && trace[|run|] == s
  }

  /** Every notifier makes its exchange in the step after its pop. */
  ghost predicate QuickNotifiers(run: seq<Action>) {
    forall i | 0 <= i < |run| && run[i].OtherPop? :: i + 1 < |run| && run[i + 1] == Exchange(run[i].k)
  }

  lemma Link(trace: seq<State>, run: seq<Action>, s: State, a: Action, s': State)
    returns (trace': seq<State>, run': seq<Action>)
    requires Reaches(trace, run, s) && Goes(s, a, s')
    ensures Reaches(trace', run', s') && run' == run + [a]
  {
    trace', run' := trace + [s'], run + [a];
    LinkedOn(trace, run, a, s', Goes);
    assert trace'[0] == trace[0];
    forall i | 0 <= i < |run'| ensures Enabled(trace'[i], run'[i]) && trace'[i + 1] == Next(trace'[i], run'[i]) {
      assert Goes(trace'[i], run'[i], trace'[i + 1]);
    }
  }

  lemma Extend(trace: seq<State>, run: seq<Action>, s: State, a: Action, s': State)
    returns (trace': seq<State>, run': seq<Action>)
    requires Reaches(trace, run, s) && Goes(s, a, s')
    ensures Reaches(trace', run', s')
    ensures QuickNotifiers(run) && !a.OtherPop? ==> QuickNotifiers(run')
    ensures QuickTimers(run) && !a.TimerRead? ==> QuickTimers(run')
  {
    trace', run' := Link(trace, run, s, a, s');
    StillQuick(run, run', [a]);
  }

  /** A waker's two steps, one after the other. */
  lemma ExtendTwo(trace: seq<State>, run: seq<Action>, s: State, a: Action, s1: State, b: Action, s2: State)
    returns (trace': seq<State>, run': seq<Action>)
    requires Reaches(trace, run, s) && Goes(s, a, s1) && Goes(s1, b, s2)
    requires (a.OtherPop? || a.TimerRead?) && b == Exchange(a.k)
    ensures Reaches(trace', run', s2)
    ensures QuickNotifiers(run) ==> QuickNotifiers(run')
    ensures QuickTimers(run) ==> QuickTimers(run')
  {
    trace', run' := Link(trace, run, s, a, s1);
    trace', run' := Link(trace', run', s1, b, s2);
    StillQuick(run, run', [a, b]);
  }

  /** Every timer callback does so after it has found the ticket valid. */
  ghost predicate QuickTimers(run: seq<Action>) {
    forall i | 0 <= i < |run| && run[i].TimerRead? :: i + 1 < |run| && run[i + 1] == Exchange(run[i].k)
  }

  lemma StillQuick(run0: seq<Action>, run: seq<Action>, more: seq<Action>)
    requires run == run0 + more
    ensures QuickNotifiers(run0) && QuickNotifiers(more) ==> QuickNotifiers(run)
    ensures QuickTimers(run0) && QuickTimers(more) ==> QuickTimers(run)
  {
  }

  lemma WaitElsewhere(trace0: seq<State>, run0: seq<Action>) returns (trace: seq<State>, run: seq<Action>)
    requires Reaches(trace0, run0, Begin(0))
    ensures Reaches(trace, run, Begin(4))
    ensures QuickNotifiers(run0) ==> QuickNotifiers(run)
    ensures QuickTimers(run0) ==> QuickTimers(run)
  {
    trace, run := trace0, run0;
    trace, run := Extend(trace, run, Begin(0), Lock(1), Begin(1)) by { Begin0(); }
    trace, run := Extend(trace, run, Begin(1), Acquire(1), Begin(2)) by { Begin1(); }
    trace, run := Extend(trace, run, Begin(2), OtherWait(2, 0, true), Begin(3)) by { Begin2(); }
    trace, run := Extend(trace, run, Begin(3), OtherBlock(2), Begin(4)) by { Begin3(); }
  }

  lemma LateNotifier(trace0: seq<State>, run0: seq<Action>) returns (trace: seq<State>, run: seq<Action>)
    requires Reaches(trace0, run0, Begin(4))
    ensures Reaches(trace, run, Return(0, Some(0)))
    ensures QuickTimers(run0) ==> QuickTimers(run)
  {
    trace, run := trace0, run0;
    trace, run := Extend(trace, run, Begin(4), OtherPop(0, 0, 0), Popped(0)) by { Pop0(); }
    trace, run := ExtendTwo(trace, run, Popped(0), TimerRead(2, 1), Popped(1), Exchange(1), Popped(2)) by {
      Pop1();
      Pop2();
    }
    trace, run := Extend(trace, run, Popped(2), OtherReturn(2), Return(0, Some(0))) by { Pop3(); }
  }

  lemma LateTimer(trace0: seq<State>, run0: seq<Action>) returns (trace: seq<State>, run: seq<Action>)
    requires Reaches(trace0, run0, Begin(4))
    ensures Reaches(trace, run, Return(0, None))
    ensures QuickNotifiers(run0) ==> QuickNotifiers(run)
  {
    trace, run := trace0, run0;
    trace, run := Extend(trace, run, Begin(4), TimerRead(2, 0), Read(0)) by { Read0(); }
    trace, run := ExtendTwo(trace, run, Read(0), OtherPop(0, 0, 1), Read(1), Exchange(1), Read(2)) by {
      Read1();
      Read2();
    }
    trace, run := Extend(trace, run, Read(2), OtherReturn(2), Return(0, None)) by { Read3(); }
  }

  lemma LateExchange(trace0: seq<State>, run0: seq<Action>, from: Option<QueueId>)
    returns (trace: seq<State>, run: seq<Action>)
    requires Reaches(trace0, run0, Return(0, from))
    ensures Reaches(trace, run, Tail(0))
    ensures QuickNotifiers(run0) ==> QuickNotifiers(run)
    ensures QuickTimers(run0) ==> QuickTimers(run)
  {
    trace, run := trace0, run0;
    trace, run := Extend(trace, run, Return(0, from), Lock(2), Return(1, from)) by { Return0(from); }
    trace, run := Extend(trace, run, Return(1, from), Miss(2), Return(2, from)) by { Return1(from); }
    trace, run := Extend(trace, run, Return(2, from), Look(2), Return(3, from)) by { Return2(from); }
    trace, run := Extend(trace, run, Return(3, from), Push(2), Return(4, from)) by { Return3(from); }
    trace, run := Extend(trace, run, Return(4, from), Exchange(0), Tail(0)) by { Return4(from); }
  }

  lemma SecondEntry(trace0: seq<State>, run0: seq<Action>) returns (trace: seq<State>, run: seq<Action>)
    requires Reaches(trace0, run0, Tail(0))
    ensures Reaches(trace, run, Tail(3))
    ensures QuickNotifiers(run0) ==> QuickNotifiers(run)
    ensures QuickTimers(run0) ==> QuickTimers(run)
  {
    trace, run := trace0, run0;
    trace, run := Extend(trace, run, Tail(0), Resume(2), Tail(1)) by { Tail0(); }
    trace, run := Extend(trace, run, Tail(1), Look(2), Tail(2)) by { Tail1(); }
    trace, run := Extend(trace, run, Tail(2), Push(2), Tail(3)) by { Tail2(); }
  }

  lemma ThirdEntry(trace0: seq<State>, run0: seq<Action>) returns (trace: seq<State>, run: seq<Action>)
    requires Reaches(trace0, run0, Tail(3))
    ensures Reaches(trace, run, Tail(7))
    ensures QuickNotifiers(run0) ==> QuickNotifiers(run)
    ensures QuickTimers(run0) ==> QuickTimers(run)
  {
    trace, run := trace0, run0;
    trace, run := Extend(trace, run, Tail(3), Lock(3), Tail(4)) by { Tail3(); }
    trace, run := Extend(trace, run, Tail(4), Miss(3), Tail(5)) by { Tail4(); }
    trace, run := Extend(trace, run, Tail(5), Look(3), Tail(6)) by { Tail5(); }
    trace, run := Extend(trace, run, Tail(6), Push(3), Tail(7)) by { Tail6(); }
  }

  lemma StaleEntry(trace0: seq<State>, run0: seq<Action>) returns (trace: seq<State>, run: seq<Action>)
    requires Reaches(trace0, run0, Tail(7))
    ensures Reaches(trace, run, Tail(11))
    ensures QuickNotifiers(run0) ==> QuickNotifiers(run)
    ensures QuickTimers(run0) ==> QuickTimers(run)
  {
    trace, run := trace0, run0;
    trace, run := Extend(trace, run, Tail(7), Unlock(1), Tail(8)) by { Tail7(); }
    trace, run := Extend(trace, run, Tail(8), Notify(1), Tail(9)) by { Tail8(); }
    trace, run := Extend(trace, run, Tail(9), Resume(2), Tail(10)) by { Tail9(); }
    trace, run := Extend(trace, run, Tail(10), Look(2), Tail(11)) by { Tail10(); }
  }

  lemma WastedNotify(trace0: seq<State>, run0: seq<Action>) returns (trace: seq<State>, run: seq<Action>)
    requires Reaches(trace0, run0, Tail(11))
    ensures Reaches(trace, run, Tail(14))
    ensures QuickNotifiers(run0) ==> QuickNotifiers(run)
    ensures QuickTimers(run0) ==> QuickTimers(run)
  {
    trace, run := trace0, run0;
    trace, run := Extend(trace, run, Tail(11), Acquire(2), Tail(12)) by { Tail11(); }
    trace, run := Extend(trace, run, Tail(12), Unlock(2), Tail(13)) by { Tail12(); }
    trace, run := Extend(trace, run, Tail(13), Notify(2), Tail(14)) by { Tail13(); }
  }

  /** From the late exchange on. */
  lemma ToTheEnd(trace0: seq<State>, run0: seq<Action>) returns (trace: seq<State>, run: seq<Action>)
    requires Reaches(trace0, run0, Tail(0))
    ensures Reaches(trace, run, Tail(14))
    ensures QuickNotifiers(run0) ==> QuickNotifiers(run)
    ensures QuickTimers(run0) ==> QuickTimers(run)
  {
    trace, run := SecondEntry(trace0, run0);
    trace, run := ThirdEntry(trace, run);
    trace, run := StaleEntry(trace, run);
    trace, run := WastedNotify(trace, run);
  }

  lemma Stranded()
    ensures !NotStranded(Tail(14))
  {
    assert 3 in Tail(14).tasks && Waits(Tail(14).tasks[3]);
  }

  /** A late notifier, all timer callbacks being quick: the run ends with the mutex free, task 3 blocked
      in its queue, and no task left that would ever look at the mutex or notify. */
  lemma StrandedByNotifier() returns (trace: seq<State>, run: seq<Action>)
    ensures IsRun(trace, run) && QuickTimers(run) && !NotStranded(trace[|run|])
  {
    trace, run := WaitElsewhere([Begin(0)], []);
    trace, run := LateNotifier(trace, run);
    trace, run := LateExchange(trace, run, Some(0));
    trace, run := ToTheEnd(trace, run);
    Stranded();
  }

  /** A late timer callback, all notifiers being quick, does the same. */
  lemma StrandedByTimer() returns (trace: seq<State>, run: seq<Action>)
    ensures IsRun(trace, run) && QuickNotifiers(run) && !NotStranded(trace[|run|])
  {
    trace, run := WaitElsewhere([Begin(0)], []);
    trace, run := LateTimer(trace, run);
    trace, run := LateExchange(trace, run, None);
    trace, run := ToTheEnd(trace, run);
    Stranded();
  }
}
