/**
 What the waiting calls are for. On any number of CPUs a task that has given up
 its CPU runs again only after a switch to it, and one that has blocked only
 after a waker has won the exchange of its state; until then it is within reach
 of its wakers. On one CPU the waker is the one the task waits for: a notify that
 pops it from the queue it waits in, or the event of its own wait.
 */
module BlockedTasks {
  import opened Options
  import opened Queues
  import opened TaskModel
  import opened TaskPlacement
  import opened TimeoutCare
  import opened TimedWaits

  /** Task t, current on the CPU, takes this step. */
  predicate By(s: State, a: Action, t: Task) { !a.Tick? && HasCurrent(s, a.c) && s.cpus[a.c].current == t }

  /** The step in which a waiting call blocks. */
  predicate Blocks(a: Action) {
    a.PlainBegin? || a.UntilBlock? || a.TimedBegin? || a.TimedUntilBlock? || a.SleepBegin?
  }

  /** The wait that a blocking step is made for. */
  function WaitOf(s: State, a: Action): Wait
    requires Blocks(a) && HasCurrent(s, a.c)
  {
    match a
    case PlainBegin(_, wq) => Plain(wq)
    case TimedBegin(_, wq, deadline) => Timed(wq, deadline)
    case SleepBegin(_, deadline) => Sleep(deadline)
    case _ => CurrentInfo(s, a.c).wait
  }

  /** A waker wins the exchange of t's state. */
  predicate Wins(s: State, a: Action, t: Task) {
    && a.WakeExchange? && a.c in s.cpus && s.cpus[a.c].phase.Waking? && s.cpus[a.c].phase.task == t
    && t in s.tasks && s.tasks[t].state == Blocked
  }

  predicate SwitchesTo(s: State, a: Action, t: Task) {
    a.Switch? && a.c in s.cpus && s.cpus[a.c].phase == Switching(t)
  }

  // ---- A task that has given up its CPU ----

  /** t gives up its CPU: it blocks, yields or exits. */
  predicate GivesUpCpu(s: State, a: Action, t: Task) { By(s, a, t) && (Blocks(a) || a.Yield? || a.Exit?) }

  lemma WaitStarts(s: State, a: Action, t: Task)
    requires Enabled(s, a) && Waits(a) && t in s.tasks && s.tasks[t].state != Running
    ensures t in Next(s, a).tasks && Next(s, a).tasks[t].state != Running
  {
  }

  lemma WakeStarts(s: State, a: Action, t: Task)
    requires Enabled(s, a) && Wakes(a) && t in s.tasks && s.tasks[t].state != Running
    ensures t in Next(s, a).tasks && Next(s, a).tasks[t].state != Running
  {
  }

  lemma ScheduleStarts(s: State, a: Action, t: Task)
    requires Enabled(s, a) && !Waits(a) && !Wakes(a) && t in s.tasks && s.tasks[t].state != Running
    ensures t in Next(s, a).tasks && (Next(s, a).tasks[t].state == Running ==> SwitchesTo(s, a, t))
  {
  }

  /** Only a switch to a task makes it Running. */
  lemma StepStarts(s: State, a: Action, t: Task)
    requires Enabled(s, a) && t in s.tasks && s.tasks[t].state != Running
    ensures t in Next(s, a).tasks && (Next(s, a).tasks[t].state == Running ==> SwitchesTo(s, a, t))
  {
    if Waits(a) { WaitStarts(s, a, t); } else if Wakes(a) { WakeStarts(s, a, t); } else { ScheduleStarts(s, a, t); }
  }

  lemma BlockStops(s: State, a: Action, t: Task)
    requires Enabled(s, a) && By(s, a, t) && Blocks(a)
    ensures var s' := Next(s, a); t in s'.tasks && s'.tasks[t].state == Blocked && s'.tasks[t].wait == WaitOf(s, a)
  {
  }

  lemma GivingUpStops(s: State, a: Action, t: Task)
    requires Enabled(s, a) && GivesUpCpu(s, a, t)
    ensures t in Next(s, a).tasks && Next(s, a).tasks[t].state != Running
    ensures a.Exit? ==> Next(s, a).tasks[t].state == Exited
  {
    if Blocks(a) { BlockStops(s, a, t); }
  }

  /** A task that blocked, yielded or exited in step b and is Running in state n was switched to. */
  lemma {:induction false} RunsAgainBySwitch(trace: seq<State>, run: seq<Action>, boot: Boot, b: nat, n: nat, t: Task)
    returns (x: nat)
    requires IsRun(trace, run, boot) && b < n <= |run| && GivesUpCpu(trace[b], run[b], t)
    requires t in trace[n].tasks && trace[n].tasks[t].state == Running
    ensures b < x < n && SwitchesTo(trace[x], run[x], t)
  {
    GivingUpStops(trace[b], run[b], t);
    var i := b + 1;
    while i < n
      invariant b < i <= n && t in trace[i].tasks && trace[i].tasks[t].state != Running
    {
      StepStarts(trace[i], run[i], t);
      if trace[i + 1].tasks[t].state == Running { return i; }
      i := i + 1;
    }
    x := n;
  }

  // ---- A task that has blocked ----

  lemma WaitUnblocks(s: State, a: Action, t: Task)
    requires Enabled(s, a) && Waits(a) && t in s.tasks && s.tasks[t].state == Blocked
    ensures t in Next(s, a).tasks && Next(s, a).tasks[t].state == Blocked
  {
  }

  lemma WakeUnblocks(s: State, a: Action, t: Task)
    requires Enabled(s, a) && Wakes(a) && t in s.tasks && s.tasks[t].state == Blocked
    ensures t in Next(s, a).tasks && (Next(s, a).tasks[t].state != Blocked <==> Wins(s, a, t))
  {
  }

  lemma ScheduleUnblocks(s: State, own: Owners, a: Action, t: Task)
    requires Placed(s, own) && Enabled(s, a) && !Waits(a) && !Wakes(a) && t in s.tasks && s.tasks[t].state == Blocked
    ensures t in Next(s, a).tasks && Next(s, a).tasks[t].state == Blocked
  {
    if a.Switch? { PickedStaysReady(s, own, a.c); }
  }

  /** A blocked task is unblocked exactly by a waker that wins the exchange. */
  lemma StepUnblocks(s: State, own: Owners, a: Action, t: Task)
    requires Placed(s, own) && Enabled(s, a) && t in s.tasks && s.tasks[t].state == Blocked
    ensures t in Next(s, a).tasks && (Next(s, a).tasks[t].state != Blocked <==> Wins(s, a, t))
  {
    if Waits(a) {
      WaitUnblocks(s, a, t);
    } else if Wakes(a) {
      WakeUnblocks(s, a, t);
    } else {
      ScheduleUnblocks(s, own, a, t);
    }
  }

  /** A task that blocked in step b and is not Blocked in state n was unblocked by a waker in between. */
  lemma BlockedUntilWoken(trace: seq<State>, run: seq<Action>, boot: Boot, b: nat, n: nat, t: Task) returns (x: nat)
    requires IsRun(trace, run, boot) && b < n <= |run| && By(trace[b], run[b], t) && Blocks(run[b])
    requires t in trace[n].tasks && trace[n].tasks[t].state != Blocked
    ensures b < x < n && Wins(trace[x], run[x], t)
    ensures forall i | b < i <= x :: t in trace[i].tasks && trace[i].tasks[t].state == Blocked
  {
    BlockStops(trace[b], run[b], t);
    var i := b + 1;
    while i < n
      invariant b < i <= n
      invariant forall j | b < j <= i :: t in trace[j].tasks && trace[j].tasks[t].state == Blocked
    {
      var own := RunPlaced(trace, run, boot, i);
      StepUnblocks(trace[i], own, run[i], t);
      if trace[i + 1].tasks[t].state != Blocked { return i; }
      i := i + 1;
    }
    x := n;
  }

  /** So a waiting call that has blocked returns only after a waker has won the exchange on its task:
      wait, wait_timeout and sleep_until always, the other two if they have blocked at all. */
  lemma ReturnsAfterWakeup(trace: seq<State>, run: seq<Action>, boot: Boot, b: nat, r: nat, t: Task) returns (x: nat)
    requires IsRun(trace, run, boot) && b < r < |run| && By(trace[b], run[b], t) && Blocks(run[b])
    requires Leaves(trace[r], run[r], t)
    ensures b < x < r && Wins(trace[x], run[x], t)
  {
    x := BlockedUntilWoken(trace, run, boot, b, r, t);
  }

  // ---- Where a wakeup comes from ----

  /** The CPU pops t from the queue. */
  predicate Pops(s: State, a: Action, c: Cpu, t: Task, wq: QueueId) {
    a.Notify? && a.c == c && a.wq == wq && a.i < |Queue(s, wq)| && Queue(s, wq)[a.i] == t
  }

  /** The CPU fires an event with t's present ticket. */
  predicate Rings(s: State, a: Action, c: Cpu, t: Task) {
    a.Fire? && a.c == c && a.e.task == t && Matches(s, a.e)
  }

  predicate Exchanging(s: State, c: Cpu, t: Task, lock: Option<QueueId>) {
    c in s.cpus && s.cpus[c].phase == Waking(t, Exchange, lock)
  }

  lemma WakerStep(s: State, a: Action, c: Cpu, t: Task, lock: Option<QueueId>)
    requires Enabled(s, a) && Exchanging(Next(s, a), c, t, lock)
    ensures Exchanging(s, c, t, lock) || if lock.Some? then Pops(s, a, c, t, lock.value) else Rings(s, a, c, t)
  {
    if Waits(a) {
      WaitWakesNone(s, a, c, t, lock);
    } else if !Wakes(a) {
      ScheduleWakesNone(s, a, c, t, lock);
    }
  }

  lemma WaitWakesNone(s: State, a: Action, c: Cpu, t: Task, lock: Option<QueueId>)
    requires Enabled(s, a) && Waits(a) && Exchanging(Next(s, a), c, t, lock)
    ensures Exchanging(s, c, t, lock)
  {
  }

  lemma ScheduleWakesNone(s: State, a: Action, c: Cpu, t: Task, lock: Option<QueueId>)
    requires Enabled(s, a) && !Waits(a) && !Wakes(a) && Exchanging(Next(s, a), c, t, lock)
    ensures Exchanging(s, c, t, lock)
  {
  }

  lemma BootsAtHome(s: State, boot: Boot)
    requires Init(s, boot)
    ensures forall c | c in s.cpus :: s.cpus[c].phase == Home
  {
    forall c | c in s.cpus ensures s.cpus[c].phase == Home { assert InitCpu(s, boot, c); }
  }

  /** On any number of CPUs: a CPU about to exchange t's state popped t from a queue, whose lock it still
      holds, or fired an event with t's ticket, in step f, and has done nothing else since. */
  lemma {:induction false} WakerComesFrom(trace: seq<State>, run: seq<Action>, boot: Boot, n: nat, c: Cpu, t: Task,
                                          lock: Option<QueueId>) returns (f: nat)
    requires IsRun(trace, run, boot) && n <= |run| && Exchanging(trace[n], c, t, lock)
    ensures f < n && if lock.Some? then Pops(trace[f], run[f], c, t, lock.value) else Rings(trace[f], run[f], c, t)
    ensures forall i | f < i <= n :: Exchanging(trace[i], c, t, lock)
  {
    BootsAtHome(trace[0], boot);
    var m := n - 1;
    WakerStep(trace[m], run[m], c, t, lock);
    if Exchanging(trace[m], c, t, lock) {
      f := WakerComesFrom(trace, run, boot, m, c, t, lock);
    } else {
      f := m;
    }
  }

  lemma BlockedKeepsWait(s: State, a: Action, t: Task)
    requires Enabled(s, a) && t in s.tasks && s.tasks[t].state == Blocked
    ensures t in Next(s, a).tasks && Next(s, a).tasks[t].wait == s.tasks[t].wait
  {
    if Waits(a) { WaitKeepsWait(s, a, t); } else { OthersKeepWaits(s, a); }
  }

  lemma WaitKeepsWait(s: State, a: Action, t: Task)
    requires Enabled(s, a) && Waits(a) && t in s.tasks && s.tasks[t].state == Blocked
    ensures t in Next(s, a).tasks && Next(s, a).tasks[t].wait == s.tasks[t].wait
  {
  }

  lemma BlocksFromRunning(s: State, own: Owners, a: Action, t: Task)
    requires Placed(s, own) && Enabled(s, a) && By(s, a, t) && Blocks(a)
    ensures s.tasks[t].state == Running && !s.cpus[a.c].phase.Waking?
  {
    assert CpuOk(s, own, a.c) && TaskOk(s, own, t);
  }

  lemma WaitLasts(trace: seq<State>, run: seq<Action>, boot: Boot, b: nat, n: nat, t: Task)
    requires IsRun(trace, run, boot) && b < n <= |run| && By(trace[b], run[b], t) && Blocks(run[b])
    requires forall i | b < i <= n :: t in trace[i].tasks && trace[i].tasks[t].state == Blocked
    ensures trace[n].tasks[t].wait == WaitOf(trace[b], run[b])
  {
    BlockStops(trace[b], run[b], t);
    for i := b + 1 to n
      invariant trace[i].tasks[t].wait == WaitOf(trace[b], run[b])
    {
      BlockedKeepsWait(trace[i], run[i], t);
    }
  }

  /** The step wakes t from the wait w: a notify of the queue it waits in, or the event of that wait. */
  predicate WakesFrom(s: State, a: Action, c: Cpu, t: Task, w: Wait) {
    || (w.HasQueue() && Pops(s, a, c, t, w.wq))
    || (w.HasDeadline() && Rings(s, a, c, t) && w.deadline == a.e.deadline <= s.now)
  }

  lemma WokenFromItsWait(s: State, c0: Cpu, a: Action, t: Task, lock: Option<QueueId>)
    requires TimedInv(s, c0) && Enabled(s, a) && t in s.tasks
    requires if lock.Some? then Pops(s, a, c0, t, lock.value) else Rings(s, a, c0, t)
    ensures WakesFrom(s, a, c0, t, s.tasks[t].wait)
  {
    if lock.Some? {
      assert TaskQueued(s, t, lock.value);
      assert t in multiset(Queue(s, lock.value));
    } else {
      assert EventOk(s, c0, a.e);
    }
  }

  /** On one CPU a task that blocked in step b, in a wait w, and is not Blocked in state n was woken from
      w in between: wait and wait_until by a notify that popped the task from their queue. */
  lemma WokenOnOneCpu(trace: seq<State>, run: seq<Action>, boot: Boot, c0: Cpu, b: nat, n: nat, t: Task)
    returns (f: nat)
    requires IsRun(trace, run, boot) && trace[0].cpus.Keys == {c0}
    requires b < n <= |run| && By(trace[b], run[b], t) && Blocks(run[b])
    requires t in trace[n].tasks && trace[n].tasks[t].state != Blocked
    ensures b < f < n && WakesFrom(trace[f], run[f], c0, t, WaitOf(trace[b], run[b]))
  {
    var x := BlockedUntilWoken(trace, run, boot, b, n, t);
    var lock := WinnerOnOneCpu(trace, run, boot, c0, x, t);
    f := WakerComesFrom(trace, run, boot, x, c0, t, lock);
    BlocksAwake(trace, run, boot, c0, b, t, lock);
    WaitLasts(trace, run, boot, b, f, t);
    WokenAt(trace, run, boot, c0, f, t, lock);
  }

  lemma WinnerOnOneCpu(trace: seq<State>, run: seq<Action>, boot: Boot, c0: Cpu, x: nat, t: Task)
    returns (lock: Option<QueueId>)
    requires IsRun(trace, run, boot) && trace[0].cpus.Keys == {c0} && x < |run| && Wins(trace[x], run[x], t)
    ensures Exchanging(trace[x], c0, t, lock)
  {
    SameCpus(trace, run, boot, c0, x);
    lock := trace[x].cpus[c0].phase.lock;
  }

  lemma WokenAt(trace: seq<State>, run: seq<Action>, boot: Boot, c0: Cpu, f: nat, t: Task, lock: Option<QueueId>)
    requires IsRun(trace, run, boot) && trace[0].cpus.Keys == {c0} && f < |run| && t in trace[f].tasks
    requires if lock.Some? then Pops(trace[f], run[f], c0, t, lock.value) else Rings(trace[f], run[f], c0, t)
    ensures WakesFrom(trace[f], run[f], c0, t, trace[f].tasks[t].wait)
  {
    var own := RunTimed(trace, run, boot, c0, f);
    WokenFromItsWait(trace[f], c0, run[f], t, lock);
  }

  lemma BlocksAwake(trace: seq<State>, run: seq<Action>, boot: Boot, c0: Cpu, b: nat, t: Task, lock: Option<QueueId>)
    requires IsRun(trace, run, boot) && trace[0].cpus.Keys == {c0}
    requires b < |run| && By(trace[b], run[b], t) && Blocks(run[b])
    ensures !Exchanging(trace[b], c0, t, lock)
  {
    SameCpus(trace, run, boot, c0, b);
    var own := RunPlaced(trace, run, boot, b);
    BlocksFromRunning(trace[b], own, run[b], t);
  }

  // ---- Within reach of its wakers ----

  predicate AboutToPush(s: State, c: Cpu, t: Task) {
    && c in s.cpus && s.cpus[c].current == t && t in s.tasks && s.tasks[t].wait.HasQueue()
    && s.cpus[c].phase == Blocking(s.tasks[t].wait.wq)
  }

  predicate InHand(s: State, c: Cpu, t: Task) {
    c in s.cpus && s.cpus[c].phase.Waking? && s.cpus[c].phase.task == t && s.cpus[c].phase.stage == Exchange
  }

  /** The task is in the queue it waits in, about to push itself, or in the hands of a waker. */
  ghost predicate Reachable(s: State, t: Task)
    requires t in s.tasks && s.tasks[t].wait.HasQueue()
  {
    || t in Queue(s, s.tasks[t].wait.wq)
    || exists c {:trigger AboutToPush(s, c, t)} {:trigger InHand(s, c, t)} :: AboutToPush(s, c, t) || InHand(s, c, t)
  }

  predicate WaitsInQueue(i: TaskInfo) { i.state == Blocked && i.wait.HasQueue() }

  ghost predicate AllReachable(s: State) {
    forall t | t in s.tasks && WaitsInQueue(s.tasks[t]) :: Reachable(s, t)
  }

  lemma StaysReachable(s: State, a: Action, t: Task)
    requires Enabled(s, a) && t in s.tasks && WaitsInQueue(s.tasks[t]) && Reachable(s, t)
    requires var s' := Next(s, a); t in s'.tasks && WaitsInQueue(s'.tasks[t]) && s'.tasks[t].wait == s.tasks[t].wait
    ensures Reachable(Next(s, a), t)
  {
    if t in Queue(s, s.tasks[t].wait.wq) {
      StaysQueued(s, a, t, s.tasks[t].wait.wq);
    } else if c :| AboutToPush(s, c, t) {
      StaysPushing(s, a, t, c);
    } else {
      var c :| InHand(s, c, t);
      StaysInHand(s, a, t, c);
    }
  }

  lemma StaysQueued(s: State, a: Action, t: Task, w: QueueId)
    requires Enabled(s, a) && t in s.tasks && WaitsInQueue(s.tasks[t]) && w == s.tasks[t].wait.wq && t in Queue(s, w)
    ensures t in Queue(Next(s, a), w) || InHand(Next(s, a), a.c, t)
  {
    if a.Notify? {
      PopLeaves(s, a.c, a.wq, a.i, t, w);
    } else if a.Return? {
      ReturnLeaves(s, a.c, t, w);
    } else if a.Push? {
      assert t in Queue(s, w) + [s.cpus[a.c].current];
    } else {
      assert Next(s, a).queues == s.queues;
    }
  }

  lemma PopLeaves(s: State, c: Cpu, wq: QueueId, i: nat, t: Task, w: QueueId)
    requires Enabled(s, Notify(c, wq, i)) && t in Queue(s, w)
    ensures t in Queue(DoNotify(s, c, wq, i), w) || InHand(DoNotify(s, c, wq, i), c, t)
  {
    var q := Queue(s, wq);
    if wq == w && q[i] != t {
      var k :| 0 <= k < |q| && q[k] == t;
      assert (q[..i] + q[i + 1..])[if k < i then k else k - 1] == t;
    }
  }

  lemma ReturnLeaves(s: State, c: Cpu, t: Task, w: QueueId)
    requires Enabled(s, Return(c)) && t in Queue(s, w) && s.cpus[c].current != t
    ensures t in Queue(DoReturn(s, c), w)
  {
    var q: seq<nat> := Queue(s, w);
    assert multiset(Without(q, s.cpus[c].current))[t] == multiset(q)[t] > 0;
  }

  // What a CPU is doing is its own affair.

  predicate SameCpu(s: State, s': State, c: Cpu) {
    c in s.cpus && c in s'.cpus && s'.cpus[c].phase == s.cpus[c].phase && s'.cpus[c].current == s.cpus[c].current
  }

  lemma WaitIsLocal(s: State, a: Action, c: Cpu)
    requires Enabled(s, a) && Waits(a) && c in s.cpus && a.c != c
    ensures SameCpu(s, Next(s, a), c)
  {
  }

  lemma WakeIsLocal(s: State, a: Action, c: Cpu)
    requires Enabled(s, a) && Wakes(a) && c in s.cpus && a.c != c
    ensures SameCpu(s, Next(s, a), c)
  {
  }

  lemma StepIsLocal(s: State, a: Action, c: Cpu)
    requires Enabled(s, a) && c in s.cpus && (a.Tick? || a.c != c)
    ensures SameCpu(s, Next(s, a), c)
  {
    if Waits(a) { WaitIsLocal(s, a, c); } else if Wakes(a) { WakeIsLocal(s, a, c); }
  }

  lemma StaysPushing(s: State, a: Action, t: Task, c: Cpu)
    requires Enabled(s, a) && AboutToPush(s, c, t)
    requires t in Next(s, a).tasks && Next(s, a).tasks[t].wait == s.tasks[t].wait
    ensures AboutToPush(Next(s, a), c, t) || (a == Push(c) && t in Queue(Next(s, a), s.tasks[t].wait.wq))
  {
    var w := s.tasks[t].wait.wq;
    if a.Tick? || a.c != c {
      StepIsLocal(s, a, c);
    } else {
      assert (Queue(s, w) + [t])[|Queue(s, w)|] == t;
    }
  }

  lemma StaysInHand(s: State, a: Action, t: Task, c: Cpu)
    requires Enabled(s, a) && InHand(s, c, t) && t in s.tasks && s.tasks[t].state == Blocked
    requires t in Next(s, a).tasks && Next(s, a).tasks[t].state == Blocked
    ensures InHand(Next(s, a), c, t)
  {
    if a.Tick? || a.c != c { StepIsLocal(s, a, c); }
  }

  lemma QueueWaitBegins(s: State, a: Action, t: Task)
    requires Enabled(s, a) && t in Next(s, a).tasks && WaitsInQueue(Next(s, a).tasks[t])
    requires !(t in s.tasks && WaitsInQueue(s.tasks[t]))
    ensures AboutToPush(Next(s, a), a.c, t)
  {
    if !Waits(a) {
      OthersKeepWaits(s, a);
    } else if t in s.tasks && s.tasks[t].state == Blocked {
      WaitKeepsWait(s, a, t);
    }
  }

  /** On any number of CPUs every step keeps every blocked task of a queue within reach. */
  lemma StepReachable(s: State, a: Action)
    requires AllReachable(s) && Enabled(s, a)
    ensures AllReachable(Next(s, a))
  {
    var s' := Next(s, a);
    forall t | t in s'.tasks && WaitsInQueue(s'.tasks[t]) ensures Reachable(s', t) {
      if t in s.tasks && WaitsInQueue(s.tasks[t]) {
        BlockedKeepsWait(s, a, t);
        StaysReachable(s, a, t);
      } else {
        QueueWaitBegins(s, a, t);
      }
    }
  }

  /** In every run, on any number of CPUs, a task blocked in a wait on a queue has an entry there, is
      about to push it, or is in the hands of a waker: no notify of the queue can miss it for good. */
  lemma WithinReach(trace: seq<State>, run: seq<Action>, boot: Boot, n: nat)
    requires IsRun(trace, run, boot) && n < |trace|
    ensures AllReachable(trace[n])
  {
    InitCared(trace[0], boot);
    forall t | t in trace[0].tasks ensures trace[0].tasks[t].state != Blocked { assert InitTask(trace[0], boot, t); }
    for i := 0 to n
      invariant AllReachable(trace[i])
    {
      StepReachable(trace[i], run[i]);
    }
  }

  /** On one CPU a task that has left its wait is in no queue, and no event that is still pending carries
      its ticket. */
  lemma NothingLeftBehind(trace: seq<State>, run: seq<Action>, boot: Boot, c0: Cpu, r: nat, t: Task)
    requires IsRun(trace, run, boot) && trace[0].cpus.Keys == {c0} && r < |run| && Leaves(trace[r], run[r], t)
    ensures var s := trace[r + 1];
            && t in s.tasks && s.tasks[t].wait == NoWait && !s.tasks[t].inWaitQueue
            && (forall w :: t !in Queue(s, w))
            && (forall e | e in s.events && e.task == t :: e.ticket != s.tasks[t].ticket)
  {
    var s := trace[r + 1];
    var own := RunTimed(trace, run, boot, c0, r + 1);
    assert TaskTimed(s, c0, t);
    forall w ensures t !in Queue(s, w) {
      assert TaskQueued(s, t, w);
      assert t in Queue(s, w) ==> t in multiset(Queue(s, w));
    }
    forall e | e in s.events && e.task == t ensures e.ticket != s.tasks[t].ticket { assert EventOk(s, c0, e); }
  }
}
