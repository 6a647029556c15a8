/**
 Timeouts on any number of CPUs. A blocked task with a deadline is cared for
 while a timer event with its ticket is pending on some CPU, or the callback of
 that event is about to unblock it. wait_timeout and sleep_until never lose
 their timeout; wait_timeout_until loses it exactly when it blocks although
 nobody cares for it any more, which cannot happen before the deadline.
 */
module TimeoutCare {
  import opened Options
  import opened TaskModel

  predicate EventOn(s: State, t: Task, c: Cpu)
    requires t in s.tasks && s.tasks[t].wait.HasDeadline()
  {
    Event(s.tasks[t].wait.deadline, s.tasks[t].ticket, t, c) in s.events
  }

  predicate CallbackOn(s: State, t: Task, c: Cpu) {
    c in s.cpus && s.cpus[c].phase == Waking(t, Exchange, None)
  }

  /** The event of the task's present wait is pending, or its callback is about to unblock the task. */
  ghost predicate Cared(s: State, t: Task)
    requires t in s.tasks && s.tasks[t].wait.HasDeadline()
  {
    exists c {:trigger EventOn(s, t, c)} {:trigger CallbackOn(s, t, c)} :: EventOn(s, t, c) || CallbackOn(s, t, c)
  }

  predicate Sleeps(i: TaskInfo) { i.state == Blocked && i.wait.HasDeadline() }

  ghost predicate AllCared(s: State) {
    forall t | t in s.tasks && Sleeps(s.tasks[t]) :: Cared(s, t)
  }

  /** The same for wait_timeout and sleep_until. */
  ghost predicate TimedCared(s: State) {
    forall t | t in s.tasks && Sleeps(s.tasks[t]) && !s.tasks[t].wait.TimedUntil? :: Cared(s, t)
  }

  /** wait_timeout_until blocks a task nobody cares for. */
  ghost predicate BlocksUncared(s: State, a: Action) {
    a.TimedUntilBlock? && Enabled(s, a) && !Cared(s, s.cpus[a.c].current)
  }

  /** No waiting call moves: nobody falls asleep, and waits and tickets stay. */
  ghost predicate WaitsKept(s: State, s': State) {
    && s.now <= s'.now
    && (forall t | t in s'.tasks && t in s.tasks ::
          && s'.tasks[t].wait == s.tasks[t].wait && s'.tasks[t].ticket == s.tasks[t].ticket
          && (s'.tasks[t].state == Blocked ==> s.tasks[t].state == Blocked))
    && (forall t | t in s'.tasks && t !in s.tasks :: s'.tasks[t].wait == NoWait)
    && s.tasks.Keys <= s'.tasks.Keys
  }

  lemma InsertKeepsWaits(s: State, c: Cpu, target: Cpu)
    requires Enabled(s, WakeInsert(c, target))
    ensures WaitsKept(s, DoInsert(s, c, target))
  {
  }

  lemma WakeKeepsWaits(s: State, a: Action)
    requires Enabled(s, a) && Wakes(a)
    ensures WaitsKept(s, Next(s, a))
  {
    match a
    case Notify(c, wq, i) => assert WaitsKept(s, DoNotify(s, c, wq, i));
    case Fire(c, e) => assert WaitsKept(s, DoFire(s, c, e));
    case WakeExchange(c) => assert WaitsKept(s, DoExchange(s, c));
    case WakeSpinDone(_) => assert Next(s, a).tasks == s.tasks;
    case WakeInsert(c, target) => InsertKeepsWaits(s, c, target);
  }

  lemma ScheduleKeepsWaits(s: State, a: Action)
    requires Enabled(s, a) && !Wakes(a) && !Waits(a)
    ensures WaitsKept(s, Next(s, a))
  {
  }

  lemma OthersKeepWaits(s: State, a: Action)
    requires Enabled(s, a) && !Waits(a)
    ensures WaitsKept(s, Next(s, a))
  {
    if Wakes(a) { WakeKeepsWaits(s, a); } else { ScheduleKeepsWaits(s, a); }
  }

  lemma FireKeeps(s: State, c0: Cpu, e: Event, t: Task, c: Cpu)
    requires Enabled(s, Fire(c0, e)) && t in s.tasks && s.tasks[t].wait.HasDeadline()
    requires EventOn(s, t, c) || CallbackOn(s, t, c)
    ensures var s' := DoFire(s, c0, e); s'.tasks == s.tasks && Cared(s', t)
  {
    var s' := DoFire(s, c0, e);
    assert EventOn(s', t, c) || CallbackOn(s', t, c) || CallbackOn(s', t, c0);
  }

  lemma ExchangeKeeps(s: State, c0: Cpu, t: Task, c: Cpu)
    requires Enabled(s, WakeExchange(c0)) && t in s.tasks && Sleeps(s.tasks[t])
    requires EventOn(s, t, c) || CallbackOn(s, t, c)
    ensures var s' := DoExchange(s, c0);
            t in s'.tasks && s'.tasks[t].wait == s.tasks[t].wait && (s'.tasks[t].state == Blocked ==> Cared(s', t))
  {
    var s' := DoExchange(s, c0);
    assert s'.tasks[t].state == Blocked ==> EventOn(s', t, c) || CallbackOn(s', t, c);
  }

  lemma WaitKeeps(s: State, a: Action, t: Task, c: Cpu)
    requires Enabled(s, a) && Waits(a) && t in s.tasks && Sleeps(s.tasks[t])
    requires EventOn(s, t, c) || CallbackOn(s, t, c)
    ensures var s' := Next(s, a);
            t in s'.tasks && s'.tasks[t].wait.HasDeadline() && (s'.tasks[t].state == Blocked ==> Cared(s', t))
  {
    var s' := Next(s, a);
    assert s'.tasks[t].state == Blocked ==> EventOn(s', t, c) || CallbackOn(s', t, c);
  }

  lemma ScheduleKeeps(s: State, a: Action, t: Task, c: Cpu)
    requires Enabled(s, a) && !Waits(a) && !a.Fire? && !a.WakeExchange? && t in s.tasks && Sleeps(s.tasks[t])
    requires EventOn(s, t, c) || CallbackOn(s, t, c)
    ensures var s' := Next(s, a);
            t in s'.tasks && s'.tasks[t].wait.HasDeadline() && (s'.tasks[t].state == Blocked ==> Cared(s', t))
  {
    var s' := Next(s, a);
    assert s'.tasks[t].state == Blocked ==> EventOn(s', t, c) || CallbackOn(s', t, c);
  }

  /** Care lasts until the task is unblocked. */
  lemma CareLasts(s: State, a: Action, t: Task)
    requires Enabled(s, a) && t in s.tasks && Sleeps(s.tasks[t]) && Cared(s, t)
    ensures var s' := Next(s, a);
            t in s'.tasks && s'.tasks[t].wait.HasDeadline() && (s'.tasks[t].state == Blocked ==> Cared(s', t))
  {
    var c :| EventOn(s, t, c) || CallbackOn(s, t, c);
    if Waits(a) {
      WaitKeeps(s, a, t, c);
    } else {
      match a
      case Fire(c0, e) => FireKeeps(s, c0, e, t, c);
      case WakeExchange(c0) => ExchangeKeeps(s, c0, t, c);
      case _ => ScheduleKeeps(s, a, t, c);
    }
  }

  /** A task falls asleep with a deadline in one of three ways; the first two arm it in the same step. */
  lemma FallsAsleep(s: State, a: Action, t: Task)
    requires Enabled(s, a) && t in Next(s, a).tasks && Sleeps(Next(s, a).tasks[t])
    requires !(t in s.tasks && Sleeps(s.tasks[t]))
    ensures a.TimedBegin? || a.SleepBegin? || a.TimedUntilBlock?
    ensures t in s.tasks && a.c in s.cpus && s.cpus[a.c].current == t
    ensures !Next(s, a).tasks[t].wait.TimedUntil? <==> !a.TimedUntilBlock?
  {
    if !Waits(a) { OthersKeepWaits(s, a); }
  }

  lemma ArmedAtOnce(s: State, a: Action)
    requires Enabled(s, a) && (a.TimedBegin? || a.SleepBegin?)
    ensures var s', t := Next(s, a), s.cpus[a.c].current; t in s'.tasks && Sleeps(s'.tasks[t]) && Cared(s', t)
  {
    assert EventOn(Next(s, a), s.cpus[a.c].current, a.c);
  }

  lemma BlockedAsCared(s: State, c: Cpu)
    requires Enabled(s, TimedUntilBlock(c))
    ensures var s', t := Next(s, TimedUntilBlock(c)), s.cpus[c].current;
            t in s'.tasks && Sleeps(s'.tasks[t]) && (Cared(s', t) <==> Cared(s, t))
  {
    var s', t := Next(s, TimedUntilBlock(c)), s.cpus[c].current;
    forall d ensures (EventOn(s', t, d) <==> EventOn(s, t, d)) && (CallbackOn(s', t, d) <==> CallbackOn(s, t, d)) {}
  }

  /** On any number of CPUs every step keeps wait_timeout and sleep_until cared for. */
  lemma StepTimedCared(s: State, a: Action)
    requires TimedCared(s) && Enabled(s, a)
    ensures TimedCared(Next(s, a))
  {
    var s' := Next(s, a);
    forall t | t in s'.tasks && Sleeps(s'.tasks[t]) && !s'.tasks[t].wait.TimedUntil? ensures Cared(s', t) {
      if t in s.tasks && Sleeps(s.tasks[t]) {
        SameWait(s, a, t);
        CareLasts(s, a, t);
      } else {
        FallsAsleep(s, a, t);
        ArmedAtOnce(s, a);
      }
    }
  }

  lemma SameWait(s: State, a: Action, t: Task)
    requires Enabled(s, a) && t in s.tasks && Sleeps(s.tasks[t])
    ensures t in Next(s, a).tasks && Next(s, a).tasks[t].wait == s.tasks[t].wait
  {
    if !Waits(a) { OthersKeepWaits(s, a); }
  }

  /** On any number of CPUs a step keeps every blocked task with a deadline cared for, if and only if it
      is not wait_timeout_until blocking a task nobody cares for. */
  lemma StepAllCared(s: State, a: Action)
    requires AllCared(s) && Enabled(s, a)
    ensures AllCared(Next(s, a)) <==> !BlocksUncared(s, a)
  {
    var s' := Next(s, a);
    if a.TimedUntilBlock? { BlockedAsCared(s, a.c); }
    if !BlocksUncared(s, a) {
      forall t | t in s'.tasks && Sleeps(s'.tasks[t]) ensures Cared(s', t) {
        if t in s.tasks && Sleeps(s.tasks[t]) {
          CareLasts(s, a, t);
        } else {
          FallsAsleep(s, a, t);
          if !a.TimedUntilBlock? { ArmedAtOnce(s, a); }
        }
      }
    }
  }

  // ---- Whole runs ----

  lemma InitCared(s: State, boot: Boot)
    requires Init(s, boot)
    ensures AllCared(s) && TimedCared(s) && Ahead(s)
  {
    forall t | t in s.tasks ensures s.tasks[t].wait == NoWait { assert InitTask(s, boot, t); }
  }

  /** wait_timeout and sleep_until never lose a timeout. */
  lemma TimedNeverLost(trace: seq<State>, run: seq<Action>, boot: Boot, n: nat)
    requires IsRun(trace, run, boot) && n < |trace|
    ensures TimedCared(trace[n])
  {
    InitCared(trace[0], boot);
    for i := 0 to n
      invariant TimedCared(trace[i])
    {
      StepTimedCared(trace[i], run[i]);
    }
  }

  ghost predicate NoneUncared(trace: seq<State>, run: seq<Action>, n: nat)
    requires n <= |run| && |run| <= |trace|
  {
    forall i {:trigger BlocksUncared(trace[i], run[i])} | 0 <= i < n :: !BlocksUncared(trace[i], run[i])
  }

  /** No timeout is lost up to the n-th state exactly when wait_timeout_until blocked no task before it
      that nobody cared for. */
  lemma TimeoutsExactly(trace: seq<State>, run: seq<Action>, boot: Boot, n: nat)
    requires IsRun(trace, run, boot) && n < |trace|
    ensures (forall i | 0 <= i <= n :: AllCared(trace[i])) <==> NoneUncared(trace, run, n)
  {
    InitCared(trace[0], boot);
    if NoneUncared(trace, run, n) {
      for i := 0 to n
        invariant forall j | 0 <= j <= i :: AllCared(trace[j])
      {
        assert !BlocksUncared(trace[i], run[i]);
        StepAllCared(trace[i], run[i]);
      }
    } else {
      var i :| 0 <= i < n && BlocksUncared(trace[i], run[i]);
      if AllCared(trace[i]) {
        StepAllCared(trace[i], run[i]);
        assert !AllCared(trace[i + 1]);
      }
    }
  }

  // ---- Before the deadline ----

  /** Until its deadline, the event of a wait_timeout_until is pending, whatever the task does. */
  ghost predicate Ahead(s: State) {
    forall t | t in s.tasks && s.tasks[t].wait.TimedUntil? && s.now < s.tasks[t].wait.deadline ::
      exists c :: EventOn(s, t, c)
  }

  lemma EventsStay(s: State, a: Action, e: Event)
    requires Enabled(s, a) && e in s.events && s.now < e.deadline
    ensures e in Next(s, a).events
  {
  }

  lemma EventStays(s: State, a: Action, t: Task, c: Cpu)
    requires Enabled(s, a) && t in s.tasks && s.tasks[t].wait.TimedUntil? && EventOn(s, t, c)
    requires s.now < s.tasks[t].wait.deadline && !a.Return?
    ensures t in Next(s, a).tasks && Next(s, a).tasks[t].wait == s.tasks[t].wait && EventOn(Next(s, a), t, c)
  {
    EventsStay(s, a, Event(s.tasks[t].wait.deadline, s.tasks[t].ticket, t, c));
    if !Waits(a) { OthersKeepWaits(s, a); }
  }

  lemma EntersUntil(s: State, a: Action, t: Task)
    requires Enabled(s, a) && t in Next(s, a).tasks && Next(s, a).tasks[t].wait.TimedUntil?
    ensures (t in s.tasks && s.tasks[t].wait == Next(s, a).tasks[t].wait)
            || (a.TimedUntilBegin? && EventOn(Next(s, a), t, a.c))
    ensures s.now <= Next(s, a).now
  {
    if !Waits(a) { OthersKeepWaits(s, a); }
  }

  lemma ReturnStays(s: State, c0: Cpu, t: Task, c: Cpu)
    requires Enabled(s, Return(c0)) && t in s.tasks && t != s.cpus[c0].current
    requires s.tasks[t].wait.TimedUntil? && EventOn(s, t, c)
    ensures t in DoReturn(s, c0).tasks && DoReturn(s, c0).tasks[t].wait == s.tasks[t].wait
            && EventOn(DoReturn(s, c0), t, c)
  {
  }

  lemma StepAhead(s: State, a: Action)
    requires Ahead(s) && Enabled(s, a)
    ensures Ahead(Next(s, a))
  {
    var s' := Next(s, a);
    forall t | t in s'.tasks && s'.tasks[t].wait.TimedUntil? && s'.now < s'.tasks[t].wait.deadline
      ensures exists c :: EventOn(s', t, c)
    {
      EntersUntil(s, a, t);
      if !a.TimedUntilBegin? || !EventOn(s', t, a.c) {
        var c :| EventOn(s, t, c);
        if a.Return? { ReturnStays(s, a.c, t, c); } else { EventStays(s, a, t, c); }
      }
    }
  }

  /** wait_timeout_until blocks before its deadline. */
  predicate InTime(s: State, a: Action) {
    a.TimedUntilBlock? && Enabled(s, a) ==> s.now < CurrentInfo(s, a.c).wait.deadline
  }

  /** If every wait_timeout_until blocks before its deadline, no timeout is lost, on any number of CPUs. */
  lemma InTimeNeverLost(trace: seq<State>, run: seq<Action>, boot: Boot, n: nat)
    requires IsRun(trace, run, boot) && n < |trace| && forall i | 0 <= i < n :: InTime(trace[i], run[i])
    ensures AllCared(trace[n])
  {
    InitCared(trace[0], boot);
    for i := 0 to n
      invariant Ahead(trace[i]) && AllCared(trace[i])
    {
      assert InTime(trace[i], run[i]);
      StepAhead(trace[i], run[i]);
      StepAllCared(trace[i], run[i]);
    }
  }

  /** Once every due event has fired and every callback is through, no task that is cared for is past
      its deadline. */
  lemma CaredNotOverdue(s: State, t: Task)
    requires AllCared(s) && t in s.tasks && s.tasks[t].wait.HasDeadline() && s.tasks[t].wait.deadline <= s.now
    requires forall e | e in s.events :: s.now < e.deadline
    requires forall c | c in s.cpus :: s.cpus[c].phase != Waking(t, Exchange, None)
    ensures s.tasks[t].state != Blocked
  {
  }
}
