/**
 When no exchange reaches the mutex late: if no task returns from a wait while
 a waker still has it in hand. One CPU ensures that, because a waker makes its
 two steps with interrupts off; so does the absence of timers, on any number of
 CPUs, because a task then stays blocked until its waker's exchange.
 */
module MutexWakers {
  import opened Options
  import opened SleepMutex

  ghost predicate NoWaker(s: State, t: Task) {
    forall k | k in s.wakers :: s.wakers[k].task != t
  }

  /** A task returns from its wait while a waker has it in hand. */
  ghost predicate Overtakes(s: State, a: Action) { a.OtherReturn? && !NoWaker(s, a.t) }

  ghost predicate Prompt(trace: seq<State>, run: seq<Action>, n: nat)
    requires n <= |run| && |run| <= |trace|
  {
    forall i {:trigger Overtakes(trace[i], run[i])} | 0 <= i < n :: !Overtakes(trace[i], run[i])
  }

  ghost predicate NoTimers(run: seq<Action>) {
    forall i | 0 <= i < |run| :: !run[i].TimerRead?
  }

  // ---- Every other queue is exact too, and every waker's task is still in its wait ----

  ghost predicate EntryOk(s: State, t: Task, w: QueueId)
    requires t in s.tasks
  {
    multiset(Other(s, w))[t] == if s.tasks[t].pc.Elsewhere? && s.tasks[t].pc.w == w && s.tasks[t].flag then 1 else 0
  }

  predicate InfoOk(i: TaskInfo) {
    && (i.flag ==> i.pc.Elsewhere? || (i.pc == Asleep && i.blocked))
    && (i.pc.Elsewhere? && i.flag && !i.blocked ==> i.timer == Fired)
  }

  predicate WakerOk(s: State, k: nat)
    requires k in s.wakers
  {
    var waker := s.wakers[k];
    && waker.task in s.tasks
    && var i := s.tasks[waker.task];
       match waker.from
       case None => WaitsElsewhere(i) && i.timer == Fired
       case Some(w) => i.pc.Elsewhere? && i.pc.w == w && !i.flag && (!i.blocked ==> i.timer == Fired)
  }

  /** No task is in the hands of two notifiers. */
  predicate Apart(s: State, j: nat, k: nat)
    requires j in s.wakers && k in s.wakers
  {
    j != k && s.wakers[j].task == s.wakers[k].task ==> s.wakers[j].from == None || s.wakers[k].from == None
  }

  ghost predicate Calm(s: State) {
    && (forall t, w {:trigger EntryOk(s, t, w)} | t in s.tasks :: EntryOk(s, t, w))
    && (forall t | t in s.tasks :: InfoOk(s.tasks[t]))
    && (forall k {:trigger WakerOk(s, k)} | k in s.wakers :: WakerOk(s, k))
    && (forall j, k {:trigger Apart(s, j, k)} | j in s.wakers && k in s.wakers :: Apart(s, j, k))
  }

  /** Only tasks that do not wait elsewhere have changed. */
  ghost predicate Aside(s: State, s': State) {
    && s'.tasks.Keys == s.tasks.Keys && s'.others == s.others && s'.wakers == s.wakers
    && forall t | t in s.tasks :: AsideTask(s.tasks[t], s'.tasks[t])
  }

  predicate AsideTask(i: TaskInfo, j: TaskInfo) {
    j == i || (!WaitsElsewhere(i) && !WaitsElsewhere(j) && InfoOk(j))
  }

  lemma AsideCalm(s: State, s': State)
    requires Calm(s) && Aside(s, s')
    ensures Calm(s')
  {
    forall t, w | t in s'.tasks ensures EntryOk(s', t, w) { assert EntryOk(s, t, w); }
    forall k | k in s'.wakers ensures WakerOk(s', k) { assert WakerOk(s, k); }
    forall j, k | j in s'.wakers && k in s'.wakers ensures Apart(s', j, k) { assert Apart(s, j, k); }
  }

  lemma LockAside(s: State, a: Action)
    requires QueueOk(s) && Calm(s) && Enabled(s, a) && OnMutex(a) && !a.Notify?
    ensures Aside(s, Next(s, a))
  {
    assert TaskOk(s, a.t) && InfoOk(s.tasks[a.t]);
    OneTask(s, a);
  }

  lemma NotifyAside(s: State, t: Task)
    requires QueueOk(s) && Calm(s) && Enabled(s, Notify(t))
    ensures Aside(s, Next(s, Notify(t)))
  {
    assert InfoOk(s.tasks[t]);
    if s.queue != [] {
      assert s.queue[0] in multiset(s.queue) && TaskOk(s, s.queue[0]);
    }
  }

  /** Steps on the mutex touch no task that waits elsewhere. */
  lemma MutexCalm(s: State, a: Action)
    requires QueueOk(s) && Calm(s) && Enabled(s, a) && OnMutex(a)
    ensures Calm(Next(s, a))
  {
    if a.Notify? { NotifyAside(s, a.t); } else { LockAside(s, a); }
    AsideCalm(s, Next(s, a));
  }

  lemma BlockCalm(s: State, t0: Task)
    requires Calm(s) && Enabled(s, OtherBlock(t0))
    ensures Calm(Next(s, OtherBlock(t0)))
  {
    var s' := Next(s, OtherBlock(t0));
    forall t, w | t in s'.tasks ensures EntryOk(s', t, w) { assert EntryOk(s, t, w); }
    forall k | k in s'.wakers ensures WakerOk(s', k) { assert WakerOk(s, k); }
    forall j, k | j in s'.wakers && k in s'.wakers ensures Apart(s', j, k) { assert Apart(s, j, k); }
  }

  lemma StayCalm(s: State, a: Action)
    requires Calm(s) && Enabled(s, a) && (a.OtherWait? || a.OtherCheck? || a.TimerRead?)
    ensures Calm(Next(s, a))
  {
    var s' := Next(s, a);
    forall t, w | t in s'.tasks ensures EntryOk(s', t, w) { assert EntryOk(s, t, w); }
    forall k | k in s'.wakers ensures WakerOk(s', k) { assert k in s.wakers ==> WakerOk(s, k); }
    forall j, k | j in s'.wakers && k in s'.wakers ensures Apart(s', j, k) {
      assert j in s.wakers && k in s.wakers ==> Apart(s, j, k);
    }
  }

  lemma ReturnCalm(s: State, t0: Task)
    requires Calm(s) && Enabled(s, OtherReturn(t0))
    ensures Calm(Next(s, OtherReturn(t0))) <==> NoWaker(s, t0)
  {
    var s' := Next(s, OtherReturn(t0));
    if NoWaker(s, t0) {
      forall t, w | t in s'.tasks ensures EntryOk(s', t, w) { assert EntryOk(s, t, w); }
      forall k | k in s'.wakers ensures WakerOk(s', k) { assert WakerOk(s, k); }
      forall j, k | j in s'.wakers && k in s'.wakers ensures Apart(s', j, k) { assert Apart(s, j, k); }
    } else {
      var k :| k in s.wakers && s.wakers[k].task == t0;
      assert !WakerOk(s', k);
    }
  }

  lemma PopCalm(s: State, w0: QueueId, i: nat, k0: nat)
    requires Calm(s) && Enabled(s, OtherPop(w0, i, k0))
    ensures Calm(Next(s, OtherPop(w0, i, k0)))
  {
    var s', q := Next(s, OtherPop(w0, i, k0)), Other(s, w0);
    var t0 := q[i];
    assert q == q[..i] + [t0] + q[i + 1..];
    assert EntryOk(s, t0, w0) && t0 in multiset(q);
    forall t, w | t in s'.tasks ensures EntryOk(s', t, w) { assert EntryOk(s, t, w); }
    forall k | k in s'.wakers ensures WakerOk(s', k) { assert k in s.wakers ==> WakerOk(s, k); }
    forall j, k | j in s'.wakers && k in s'.wakers ensures Apart(s', j, k) {
      assert (j in s.wakers ==> WakerOk(s, j)) && (k in s.wakers ==> WakerOk(s, k));
      assert j in s.wakers && k in s.wakers ==> Apart(s, j, k);
    }
  }

  lemma ExchangeCalm(s: State, k0: nat)
    requires Calm(s) && Enabled(s, Exchange(k0))
    ensures Calm(Next(s, Exchange(k0)))
  {
    var s' := Next(s, Exchange(k0));
    assert WakerOk(s, k0);
    forall t, w | t in s'.tasks ensures EntryOk(s', t, w) { assert EntryOk(s, t, w); }
    forall k | k in s'.wakers ensures WakerOk(s', k) { assert WakerOk(s, k) && Apart(s, k0, k); }
    forall j, k | j in s'.wakers && k in s'.wakers ensures Apart(s', j, k) { assert Apart(s, j, k); }
  }

  /** A step keeps all queues exact and every waker's task in its wait, if and only if it is not a return
      that overtakes a waker. */
  lemma StepCalm(s: State, a: Action)
    requires QueueOk(s) && Calm(s) && Enabled(s, a)
    ensures Calm(Next(s, a)) <==> !Overtakes(s, a)
    ensures !Late(s, a)
  {
    match a
    case OtherWait(_, _, _) => StayCalm(s, a);
    case OtherBlock(t) => BlockCalm(s, t);
    case OtherCheck(_) => StayCalm(s, a);
    case OtherReturn(t) => ReturnCalm(s, t);
    case OtherPop(w, i, k) => PopCalm(s, w, i, k);
    case TimerRead(_, _) => StayCalm(s, a);
    case Exchange(k) =>
      assert WakerOk(s, k);
      ExchangeCalm(s, k);
    case _ => MutexCalm(s, a);
  }

  lemma RunCalm(trace: seq<State>, run: seq<Action>, n: nat)
    requires IsRun(trace, run) && n < |trace| && Prompt(trace, run, n)
    ensures QueueOk(trace[n]) && Calm(trace[n]) && NoneLate(trace, run, n)
  {
    for i := 0 to n
      invariant QueueOk(trace[i]) && Calm(trace[i]) && NoneLate(trace, run, i)
    {
      assert !Overtakes(trace[i], run[i]);
      StepCalm(trace[i], run[i]);
      StepQueue(trace[i], run[i]);
    }
  }

  /** With prompt wakers no waiter is stranded, on any number of CPUs. */
  lemma PromptStrandsNobody(trace: seq<State>, run: seq<Action>, n: nat)
    requires IsRun(trace, run) && n < |trace| && Prompt(trace, run, n)
    ensures NotStranded(trace[n]) && QueueOk(trace[n]) && Calm(trace[n])
  {
    RunCalm(trace, run, n);
    NoStrandedWaiter(trace, run, n);
  }

  // ---- One CPU ----

  /** What a CPU executes: the code of a task, or an interrupt handler. */
  datatype Code = Thread(t: Task) | Handler

  /** The step opens a waker's two-step section. */
  predicate Opens(a: Action) { a.OtherPop? || a.TimerRead? }

  /** Interrupts are still off after the step: a notifier holds a queue lock, a callback is in the timer
      interrupt, or a task has the lock of the mutex's queue and has yet to push itself. */
  predicate Masked(a: Action, s': State) { Opens(a) || (a.Look? && s'.lock == Some(a.t)) }

  /** Steps of a task are steps of its code; timer callbacks are run by the interrupt handler. */
  predicate RunBy(a: Action, code: Code) {
    match a
    case OtherPop(_, _, _) => true
    case TimerRead(_, _) => code == Handler
    case Exchange(_) => true
    case _ => code == Thread(a.t)
  }

  /** Program order inside a section: a waker that has the task in hand goes on to its exchange. */
  predicate InOrder(a: Action, b: Action) { Opens(a) ==> b == Exchange(a.k) }

  /** Step j is the next step of the code that made step i. */
  ghost predicate NextOf(code: seq<Code>, i: nat, j: nat) {
    i < j < |code| && code[j] == code[i] && forall m | i < m < j :: code[m] != code[i]
  }

  /** A run on one CPU: every step is made by some code, each code follows its program, and the CPU does
      not turn to other code while interrupts are off. */
  ghost predicate OneCpu(trace: seq<State>, run: seq<Action>, code: seq<Code>)
    requires |trace| == |run| + 1
  {
    && |code| == |run|
    && (forall i | 0 <= i < |run| :: RunBy(run[i], code[i]))
    && (forall i: nat, j: nat | NextOf(code, i, j) :: InOrder(run[i], run[j]))
    && (forall i {:trigger Masked(run[i], trace[i + 1])} | 0 <= i < |run| - 1 && Masked(run[i], trace[i + 1]) ::
          code[i + 1] == code[i])
  }

  /** Only the waker opened by the last step is under way. */
  predicate JustOpened(s: State, a: Action) { s.wakers.Keys == if Opens(a) then {a.k} else {} }

  lemma ThenExchange(trace: seq<State>, run: seq<Action>, code: seq<Code>, i: nat, j: nat)
    requires IsRun(trace, run) && OneCpu(trace, run, code) && j == i + 1 < |run| && Opens(run[i])
    ensures run[j] == Exchange(run[i].k)
  {
    assert Masked(run[i], trace[i + 1]);
    assert NextOf(code, i, j);
  }

  lemma StepOpened(s: State, a: Action)
    requires Enabled(s, a) && (s.wakers == map[] || (a.Exchange? && s.wakers.Keys == {a.k}))
    ensures JustOpened(Next(s, a), a)
  {
  }

  lemma OneAtATime(trace: seq<State>, run: seq<Action>, code: seq<Code>, n: nat)
    requires IsRun(trace, run) && OneCpu(trace, run, code) && n < |run|
    ensures JustOpened(trace[n + 1], run[n])
    ensures trace[n].wakers != map[] ==> run[n].Exchange?
  {
    if n > 0 {
      OneAtATime(trace, run, code, n - 1);
      if Opens(run[n - 1]) {
        ThenExchange(trace, run, code, n - 1, n);
      } else {
        assert trace[n].wakers == map[];
      }
    }
    StepOpened(trace[n], run[n]);
  }

  /** On one CPU, with interrupts off under a queue's lock and in the timer interrupt, no task returns
      while a waker has it in hand. */
  lemma OneCpuIsPrompt(trace: seq<State>, run: seq<Action>, code: seq<Code>)
    requires IsRun(trace, run) && OneCpu(trace, run, code)
    ensures Prompt(trace, run, |run|)
  {
    forall i | 0 <= i < |run| ensures !Overtakes(trace[i], run[i]) {
      OneAtATime(trace, run, code, i);
      if k :| k in trace[i].wakers { assert trace[i].wakers != map[]; }
    }
  }

  // ---- Without timers ----

  ghost predicate Untimed(s: State) {
    && (forall t | t in s.tasks :: s.tasks[t].timer != Fired)
    && (forall k | k in s.wakers :: s.wakers[k].task in s.tasks && s.wakers[k].from.Some?)
  }

  lemma StepUntimed(s: State, a: Action)
    requires Calm(s) && Untimed(s) && Enabled(s, a) && !a.TimerRead?
    ensures Untimed(Next(s, a)) && !Overtakes(s, a)
  {
    if a.OtherReturn? { HeldBack(s, a.t); }
    NotFired(s, a);
    if OnMutex(a) { assert Next(s, a).wakers == s.wakers; } else { WakersNotify(s, a); }
  }

  /** A task that a notifier has in hand is still blocked. */
  lemma HeldBack(s: State, t: Task)
    requires Calm(s) && Untimed(s) && Enabled(s, OtherReturn(t))
    ensures NoWaker(s, t)
  {
    forall k | k in s.wakers ensures s.wakers[k].task != t { assert WakerOk(s, k); }
  }

  lemma NotFired(s: State, a: Action)
    requires Untimed(s) && Enabled(s, a) && !a.TimerRead?
    ensures Next(s, a).tasks.Keys == s.tasks.Keys
    ensures forall t | t in s.tasks :: Next(s, a).tasks[t].timer != Fired
  {
    var s' := Next(s, a);
    forall t | t in s.tasks ensures t in s'.tasks && s'.tasks[t].timer != Fired { NotFiredAt(s, a, t); }
    SameTasks(s, a);
  }

  lemma NotFiredAt(s: State, a: Action, t: Task)
    requires Enabled(s, a) && !a.TimerRead? && t in s.tasks && s.tasks[t].timer != Fired
    ensures t in Next(s, a).tasks && Next(s, a).tasks[t].timer != Fired
  {
  }

  lemma WakersNotify(s: State, a: Action)
    requires Untimed(s) && Enabled(s, a) && !a.TimerRead? && !OnMutex(a)
    ensures forall k | k in Next(s, a).wakers :: Next(s, a).wakers[k].task in s.tasks && Next(s, a).wakers[k].from.Some?
  {
  }

  lemma NoTimersIsPrompt(trace: seq<State>, run: seq<Action>)
    requires IsRun(trace, run) && NoTimers(run)
    ensures Prompt(trace, run, |run|)
  {
    for i := 0 to |run|
      invariant QueueOk(trace[i]) && Calm(trace[i]) && Untimed(trace[i]) && Prompt(trace, run, i)
    {
      StepUntimed(trace[i], run[i]);
      StepCalm(trace[i], run[i]);
      StepQueue(trace[i], run[i]);
    }
  }
}
