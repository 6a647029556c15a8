/**
 The sleeping mutex of xsync: an owner word changed by compare-exchange and
 swap, and a wait queue. Any number of tasks lock, try-lock and unlock it. They
 may also wait in other queues, holding the mutex or not, with a timer or
 without, because a task has one `in_wait_queue` flag and one state whichever
 queue it is in.

 A wakeup from elsewhere takes two steps. A notifier of another queue pops a
 task and clears its flag, or a timer callback finds the task's ticket valid;
 later the waker exchanges the task's state. Any number of such wakers may be
 between the two steps (`wakers`). What happens to the mutex depends on where
 the task is when the exchange is made.
 */
module SleepMutex {
  import opened Options
  import opened Queues

  type Task = nat
  type QueueId = nat

  datatype Pc =
    | Away                // in no wait and not at the mutex
    | Try                 // in the lock loop, about to compare-exchange the owner word
    | Check               // in wait_until, about to take the queue lock and look at the owner word
    | Pushing             // saw the mutex locked: Blocked, holding the queue lock, not pushed yet
    | Asleep              // pushed; runs again once its state is no longer Blocked
    | Held                // inside the critical section, and in no wait
    | Owing               // swapped the owner word to 0, about to notify_one
    | Retry(w: QueueId, holds: bool)       // in a wait on another queue, about to block in it
    | Elsewhere(w: QueueId, holds: bool)   // blocked in it, or woken there; `holds` if it holds the mutex

  /** The event of a wait elsewhere. */
  datatype Timer = NoTimer | Armed | Fired

  datatype TaskInfo = TaskInfo(pc: Pc, blocked: bool, flag: bool, timer: Timer)

  /** A notifier of queue `from`, or a timer callback, that has yet to exchange the task's state. */
  datatype Waker = Waker(task: Task, from: Option<QueueId>)

  datatype State = State(
    tasks: map<Task, TaskInfo>,
    owner: Option<Task>,
    queue: seq<Task>,                     // the mutex's wait queue
    lock: Option<Task>,                   // who holds the lock of that queue
    others: map<QueueId, seq<Task>>,
    locks: set<QueueId>,                  // queues locked by a notifier
    wakers: map<nat, Waker>)

  datatype Action =
    | Lock(t: Task)
    | TryLock(t: Task)
    | Acquire(t: Task)
    | Miss(t: Task)
    | Look(t: Task)
    | Push(t: Task)
    | Resume(t: Task)
    | Unlock(t: Task)
    | Notify(t: Task)
    | OtherWait(t: Task, w: QueueId, timed: bool)
    | OtherBlock(t: Task)
    | OtherCheck(t: Task)                          // woken, condition false, clock before the deadline
    | OtherReturn(t: Task)
    | OtherPop(w: QueueId, i: nat, k: nat)
    | TimerRead(t: Task, k: nat)                   // the callback finds the ticket valid
    | Exchange(k: nat)

  predicate At(s: State, t: Task, pc: Pc) {
    t in s.tasks && s.tasks[t].pc == pc
  }

  function Other(s: State, w: QueueId): seq<Task> {
    if w in s.others then s.others[w] else []
  }

  predicate WaitsElsewhere(i: TaskInfo) { i.pc.Elsewhere? || i.pc.Retry? }

  /** Inside the critical section, waiting elsewhere or not. */
  predicate Inside(i: TaskInfo) { i.pc == Held || (WaitsElsewhere(i) && i.pc.holds) }

  predicate Enabled(s: State, a: Action) {
    match a
    case Lock(t) => At(s, t, Away)
    case TryLock(t) => At(s, t, Away) && s.owner == None
    case Acquire(t) => At(s, t, Try) && s.owner == None
    case Miss(t) => At(s, t, Try)                      // compare_exchange_weak may also fail when it need not
    case Look(t) => At(s, t, Check) && s.lock == None
    case Push(t) => At(s, t, Pushing)
    case Resume(t) => At(s, t, Asleep) && !s.tasks[t].blocked
    case Unlock(t) => At(s, t, Held)
    case Notify(t) => At(s, t, Owing) && s.lock == None && (s.queue != [] ==> s.queue[0] in s.tasks)
    case OtherWait(t, w, timed) => At(s, t, Away) || At(s, t, Held)
    case OtherBlock(t) => t in s.tasks && s.tasks[t].pc.Retry? && s.tasks[t].pc.w !in s.locks
    case OtherCheck(t) =>
      t in s.tasks && s.tasks[t].pc.Elsewhere? && !s.tasks[t].blocked && s.tasks[t].timer != Fired
    case OtherReturn(t) =>
      && t in s.tasks && WaitsElsewhere(s.tasks[t]) && !s.tasks[t].blocked
      && (s.tasks[t].flag ==> s.tasks[t].pc.w !in s.locks)
    case OtherPop(w, i, k) =>
      w !in s.locks && k !in s.wakers && i < |Other(s, w)| && Other(s, w)[i] in s.tasks
    case TimerRead(t, k) =>
      t in s.tasks && WaitsElsewhere(s.tasks[t]) && s.tasks[t].timer == Armed && k !in s.wakers
    case Exchange(k) => k in s.wakers && s.wakers[k].task in s.tasks
  }

  function Go(s: State, t: Task, pc: Pc): State
    requires t in s.tasks
  {
    s.(tasks := s.tasks[t := s.tasks[t].(pc := pc)])
  }

  /** The Blocked-to-Ready exchange; it does nothing to a task that is not Blocked. */
  function Unblock(s: State, t: Task): State
    requires t in s.tasks
  {
    s.(tasks := s.tasks[t := s.tasks[t].(blocked := false)])
  }

  function SetFlag(s: State, t: Task, flag: bool): State
    requires t in s.tasks
  {
    s.(tasks := s.tasks[t := s.tasks[t].(flag := flag)])
  }

  function SetOther(s: State, w: QueueId, q: seq<Task>): State {
    s.(others := s.others[w := q])
  }

  function Next(s: State, a: Action): State
    requires Enabled(s, a)
  {
    match a
    case Lock(t) => Go(s, t, Try)
    case TryLock(t) => Go(s, t, Held).(owner := Some(t))
    case Acquire(t) => Go(s, t, Held).(owner := Some(t))
    case Miss(t) => Go(s, t, Check)
    case Look(t) =>
      if s.owner == None then
        // The condition holds: leave wait_until through cancel_events.
        var s1 := Go(s, t, Try);
        if s.tasks[t].flag then SetFlag(s1, t, false).(queue := Without(s.queue, t)) else s1
      else
        s.(tasks := s.tasks[t := s.tasks[t].(pc := Pushing, blocked := true)], lock := Some(t))
    case Push(t) => SetFlag(Go(s, t, Asleep), t, true).(queue := s.queue + [t], lock := None)
    case Resume(t) => Go(s, t, Check)
    case Unlock(t) => Go(s, t, Owing).(owner := None)
    case Notify(t) =>
      if s.queue == [] then Go(s, t, Away)
      else Go(Unblock(SetFlag(s, s.queue[0], false), s.queue[0]), t, Away).(queue := s.queue[1..])
    case OtherWait(t, w, timed) =>
      var pc := Retry(w, s.tasks[t].pc == Held);
      s.(tasks := s.tasks[t := s.tasks[t].(pc := pc, timer := if timed then Armed else NoTimer)])
    case OtherBlock(t) =>
      var Retry(w, holds) := s.tasks[t].pc;
      SetOther(s.(tasks := s.tasks[t := s.tasks[t].(pc := Elsewhere(w, holds), blocked := true, flag := true)]), w,
          Other(s, w) + [t])
    case OtherCheck(t) => Go(s, t, Retry(s.tasks[t].pc.w, s.tasks[t].pc.holds))
    case OtherReturn(t) =>
      // cancel_events: leave the queue if still flagged, and expire the ticket.
      var w, back := s.tasks[t].pc.w, if s.tasks[t].pc.holds then Held else Away;
      var s1 := s.(tasks := s.tasks[t := s.tasks[t].(pc := back, flag := false, timer := NoTimer)]);
      if s.tasks[t].flag then SetOther(s1, w, Without(Other(s, w), t)) else s1
    case OtherPop(w, i, k) =>
      var q := Other(s, w);
      SetOther(SetFlag(s, q[i], false), w, q[..i] + q[i + 1..]).(
      locks := s.locks + {w}, wakers := s.wakers[k := Waker(q[i], Some(w))])
    case TimerRead(t, k) =>
      s.(tasks := s.tasks[t := s.tasks[t].(timer := Fired)], wakers := s.wakers[k := Waker(t, None)])
    case Exchange(k) =>
      var waker := s.wakers[k];
      Unblock(s, waker.task).(
      wakers := s.wakers - {k}, locks := if waker.from.Some? then s.locks - {waker.from.value} else s.locks)
  }

  /** The step leads from s to s'. */
  predicate Goes(s: State, a: Action, s': State) {
    Enabled(s, a) && Next(s, a) == s'
  }

  ghost predicate Init(s: State) {
    && s.owner == None && s.queue == [] && s.lock == None && s.others == map[] && s.locks == {} && s.wakers == map[]
    && forall t | t in s.tasks :: s.tasks[t] == TaskInfo(Away, false, false, NoTimer)
  }

  ghost predicate IsRun(trace: seq<State>, run: seq<Action>) {
    && |trace| == |run| + 1 && Init(trace[0])
    && forall i :: 0 <= i < |run| ==> Enabled(trace[i], run[i]) && trace[i + 1] == Next(trace[i], run[i])
  }

  // ---- Mutual exclusion, on any number of CPUs ----

  /** The task named by the owner word is the only one inside the critical section. */
  ghost predicate Exclusive(s: State) {
    forall t | t in s.tasks :: Inside(s.tasks[t]) <==> s.owner == Some(t)
  }

  predicate OnMutex(a: Action) {
    || a.Lock? || a.TryLock? || a.Acquire? || a.Miss? || a.Look? || a.Push? || a.Resume? || a.Unlock? || a.Notify?
  }

  /** The steps on the mutex but the notify change one task. */
  lemma OneTask(s: State, a: Action)
    requires Enabled(s, a) && OnMutex(a) && !a.Notify?
    ensures var s' := Next(s, a);
            s'.tasks == s.tasks[a.t := s'.tasks[a.t]] && s'.others == s.others && s'.wakers == s.wakers
  {
  }

  lemma SameTasks(s: State, a: Action)
    requires Enabled(s, a)
    ensures Next(s, a).tasks.Keys == s.tasks.Keys
  {
  }

  lemma MutexExclusive(s: State, a: Action)
    requires Exclusive(s) && Enabled(s, a) && OnMutex(a)
    ensures Exclusive(Next(s, a))
  {
    if a.TryLock? || a.Acquire? {
      assert Next(s, a) == Go(s, a.t, Held).(owner := Some(a.t));
    } else if a.Unlock? {
      assert Next(s, a) == Go(s, a.t, Owing).(owner := None);
    } else {
      SameTasks(s, a);
      forall t | t in s.tasks ensures Inside(Next(s, a).tasks[t]) <==> Next(s, a).owner == Some(t) {
        SameInside(s, a, t);
      }
    }
  }

  lemma SameInside(s: State, a: Action, t: Task)
    requires Enabled(s, a) && OnMutex(a) && !a.TryLock? && !a.Acquire? && !a.Unlock? && t in s.tasks
    ensures Next(s, a).owner == s.owner && t in Next(s, a).tasks
    ensures Inside(Next(s, a).tasks[t]) <==> Inside(s.tasks[t])
  {
  }

  lemma OtherExclusive(s: State, a: Action)
    requires Exclusive(s) && Enabled(s, a) && !OnMutex(a)
    ensures Exclusive(Next(s, a))
  {
  }

  lemma StepExclusive(s: State, a: Action)
    requires Exclusive(s) && Enabled(s, a)
    ensures Exclusive(Next(s, a))
  {
    if OnMutex(a) { MutexExclusive(s, a); } else { OtherExclusive(s, a); }
  }

  lemma MutualExclusion(trace: seq<State>, run: seq<Action>, n: nat, t: Task, u: Task)
    requires IsRun(trace, run) && n < |trace|
    requires t in trace[n].tasks && u in trace[n].tasks && Inside(trace[n].tasks[t]) && Inside(trace[n].tasks[u])
    ensures t == u && trace[n].owner == Some(t)
  {
    for i := 0 to n
      invariant Exclusive(trace[i])
    {
      StepExclusive(trace[i], run[i]);
    }
  }

  // ---- The queue of the mutex is exact as long as no exchange is late ----

  predicate Waits(i: TaskInfo) {
    i.blocked && (i.pc == Asleep || i.pc == Pushing)
  }

  /** A waker from elsewhere wins the exchange on a task that waits for the mutex. */
  predicate Late(s: State, a: Action) {
    a.Exchange? && a.k in s.wakers && s.wakers[a.k].task in s.tasks && Waits(s.tasks[s.wakers[a.k].task])
  }

  ghost predicate TaskOk(s: State, t: Task)
    requires t in s.tasks
  {
    var i := s.tasks[t];
    && multiset(s.queue)[t] == (if i.pc == Asleep && i.blocked then 1 else 0)
    && (i.pc == Pushing ==> i.blocked)
    && (i.pc == Pushing <==> s.lock == Some(t))
  }

  /** The queue holds exactly the tasks blocked in it, each once. */
  ghost predicate QueueOk(s: State) {
    && (forall t {:trigger TaskOk(s, t)} | t in s.tasks :: TaskOk(s, t))
    && (forall t | t in s.queue :: t in s.tasks)
    && (s.lock.Some? ==> s.lock.value in s.tasks)
  }

  lemma LookQueue(s: State, t0: Task)
    requires QueueOk(s) && Enabled(s, Look(t0))
    ensures QueueOk(Next(s, Look(t0)))
  {
    var s' := Next(s, Look(t0));
    forall t | t in s'.tasks ensures TaskOk(s', t) { assert TaskOk(s, t) && TaskOk(s, t0); }
    forall t | t in s'.queue ensures t in s'.tasks {
      if s'.queue != s.queue { WithoutIn(s.queue, t0, t); }
    }
  }

  lemma NotifyQueue(s: State, t0: Task)
    requires QueueOk(s) && Enabled(s, Notify(t0))
    ensures QueueOk(Next(s, Notify(t0)))
  {
    var s' := Next(s, Notify(t0));
    if s.queue != [] {
      assert s.queue == [s.queue[0]] + s.queue[1..];
      assert TaskOk(s, s.queue[0]);
    }
    forall t | t in s'.tasks ensures TaskOk(s', t) { assert TaskOk(s, t); }
  }

  /** The other steps on the mutex touch one task and add at most one entry. */
  lemma LockQueue(s: State, a: Action)
    requires QueueOk(s) && Enabled(s, a)
    requires a.Lock? || a.TryLock? || a.Acquire? || a.Miss? || a.Resume? || a.Unlock? || a.Push?
    ensures QueueOk(Next(s, a))
  {
    var s' := Next(s, a);
    assert TaskOk(s, a.t);
    forall t | t in s'.tasks ensures TaskOk(s', t) { assert TaskOk(s, t); }
  }

  lemma OtherQueue(s: State, a: Action)
    requires QueueOk(s) && Enabled(s, a)
    requires a.OtherWait? || a.OtherBlock? || a.OtherCheck? || a.OtherReturn? || a.OtherPop? || a.TimerRead?
    ensures QueueOk(Next(s, a))
  {
    var s' := Next(s, a);
    forall t | t in s'.tasks ensures TaskOk(s', t) { assert TaskOk(s, t); }
  }

  lemma ExchangeQueue(s: State, k: nat)
    requires QueueOk(s) && Enabled(s, Exchange(k))
    ensures QueueOk(Next(s, Exchange(k))) <==> !Late(s, Exchange(k))
  {
    var s', t0 := Next(s, Exchange(k)), s.wakers[k].task;
    assert TaskOk(s, t0);
    if Late(s, Exchange(k)) {
      assert !TaskOk(s', t0);
    } else {
      forall t | t in s'.tasks ensures TaskOk(s', t) { assert TaskOk(s, t); }
    }
  }

  /** A step keeps the queue exact if and only if it is not a late exchange. */
  lemma StepQueue(s: State, a: Action)
    requires QueueOk(s) && Enabled(s, a)
    ensures QueueOk(Next(s, a)) <==> !Late(s, a)
  {
    match a
    case Look(t) => LookQueue(s, t);
    case Notify(t) => NotifyQueue(s, t);
    case Exchange(k) => ExchangeQueue(s, k);
    case OtherWait(_, _, _) => OtherQueue(s, a);
    case OtherBlock(_) => OtherQueue(s, a);
    case OtherCheck(_) => OtherQueue(s, a);
    case OtherReturn(_) => OtherQueue(s, a);
    case OtherPop(_, _, _) => OtherQueue(s, a);
    case TimerRead(_, _) => OtherQueue(s, a);
    case _ => LockQueue(s, a);
  }

  ghost predicate NoneLate(trace: seq<State>, run: seq<Action>, n: nat)
    requires n <= |run| && |run| <= |trace|
  {
    forall i {:trigger Late(trace[i], run[i])} | 0 <= i < n :: !Late(trace[i], run[i])
  }

  /** Over a run: the queue is exact in every state up to the n-th exactly when no exchange before it
      was late. */
  lemma QueueExactly(trace: seq<State>, run: seq<Action>, n: nat)
    requires IsRun(trace, run) && n < |trace|
    ensures (forall i | 0 <= i <= n :: QueueOk(trace[i])) <==> NoneLate(trace, run, n)
  {
    assert QueueOk(trace[0]);
    if NoneLate(trace, run, n) {
      for i := 0 to n
        invariant forall j | 0 <= j <= i :: QueueOk(trace[j])
      {
        StepQueue(trace[i], run[i]);
      }
    } else {
      var i :| 0 <= i < n && Late(trace[i], run[i]);
      if QueueOk(trace[i]) {
        StepQueue(trace[i], run[i]);
        assert !QueueOk(trace[i + 1]);
      }
    }
  }

  // ---- No stranded waiter ----

  /** The task will look at the owner word again, or will notify. */
  predicate Alert(i: TaskInfo) {
    i.pc == Try || i.pc == Check || i.pc == Owing || ((i.pc == Asleep || i.pc == Pushing) && !i.blocked)
  }

  ghost predicate Hope(s: State) {
    exists t | t in s.tasks :: Alert(s.tasks[t])
  }

  ghost predicate SomeWait(s: State) {
    exists t | t in s.tasks :: Waits(s.tasks[t])
  }

  /** If the mutex is free while a task is blocked in its queue, some task is alert. */
  ghost predicate NotStranded(s: State) {
    s.owner == None && SomeWait(s) ==> Hope(s)
  }

  /** Whatever else happens: a task blocked in the queue has an entry there, and a task that has marked
      itself Blocked and not pushed itself yet holds the lock. */
  ghost predicate Listed(s: State) {
    && (forall t | t in s.tasks && s.tasks[t].pc == Asleep && s.tasks[t].blocked :: t in s.queue)
    && (forall t | t in s.tasks && s.tasks[t].pc == Pushing :: s.lock == Some(t))
    && (forall t | t in s.queue :: t in s.tasks)
  }

  lemma LookListed(s: State, t0: Task)
    requires Listed(s) && Enabled(s, Look(t0))
    ensures Listed(Next(s, Look(t0)))
  {
    var s' := Next(s, Look(t0));
    if s'.queue != s.queue {
      forall t | t in s'.queue ensures t in s'.tasks { WithoutIn(s.queue, t0, t); }
      forall t | t in s'.tasks && s'.tasks[t].pc == Asleep && s'.tasks[t].blocked ensures t in s'.queue {
        assert t in multiset(s.queue) && t in multiset(s'.queue);
      }
    }
  }

  lemma PushListed(s: State, t0: Task)
    requires Listed(s) && Enabled(s, Push(t0))
    ensures Listed(Next(s, Push(t0)))
  {
  }

  lemma NotifyListed(s: State, t0: Task)
    requires Listed(s) && Enabled(s, Notify(t0))
    ensures Listed(Next(s, Notify(t0)))
  {
    if s.queue != [] {
      assert s.queue == [s.queue[0]] + s.queue[1..];
    }
  }

  lemma StepListed(s: State, a: Action)
    requires Listed(s) && Enabled(s, a)
    ensures Listed(Next(s, a))
  {
    match a
    case Look(t) => LookListed(s, t);
    case Push(t) => PushListed(s, t);
    case Notify(t) => NotifyListed(s, t);
    case _ => KeptListed(s, a);
  }

  lemma KeptListed(s: State, a: Action)
    requires Listed(s) && Enabled(s, a) && !a.Look? && !a.Push? && !a.Notify?
    ensures Listed(Next(s, a))
  {
    var s' := Next(s, a);
    assert s'.queue == s.queue && s'.lock == s.lock;
    forall t | t in s'.tasks ensures t in s.tasks && (s'.tasks[t].pc == Pushing ==> s.tasks[t].pc == Pushing)
        && (s'.tasks[t].pc == Asleep && s'.tasks[t].blocked ==> s.tasks[t].pc == Asleep && s.tasks[t].blocked)
    {
    }
  }

  /** The notify of `t` is wasted: it pops the entry of a task that does not wait for the mutex, while
      another does and nobody else is alert. */
  ghost predicate Wasted(s: State, t: Task) {
    && s.owner == None && SomeWait(s)
    && (s.queue != [] && s.queue[0] in s.tasks ==> !Waits(s.tasks[s.queue[0]]))
    && (forall v | v in s.tasks && v != t :: !Alert(s.tasks[v]))
  }

  /** While the mutex stays free, a task leaves the lock loop only by acquiring it. */
  lemma StaysAlert(s: State, a: Action, v: Task)
    requires Enabled(s, a) && v in s.tasks && Alert(s.tasks[v]) && s.owner == None
    requires !a.TryLock? && !a.Acquire? && (a.Notify? ==> v != a.t)
    ensures v in Next(s, a).tasks && Alert(Next(s, a).tasks[v])
  {
  }

  /** While the mutex is free, no task starts to wait for it. */
  lemma NoNewWaiter(s: State, a: Action, w: Task)
    requires Enabled(s, a) && s.owner == None
    requires w in Next(s, a).tasks && Waits(Next(s, a).tasks[w])
    ensures w in s.tasks && Waits(s.tasks[w])
  {
  }

  lemma NotifyWakes(s: State, t: Task)
    requires Enabled(s, Notify(t)) && s.queue != [] && Waits(s.tasks[s.queue[0]])
    ensures Hope(Next(s, Notify(t)))
  {
    var s', u := Next(s, Notify(t)), s.queue[0];
    assert u in s'.tasks && Alert(s'.tasks[u]);
  }

  lemma NotifyWastes(s: State, t: Task, w: Task)
    requires Enabled(s, Notify(t)) && s.owner == None && s.queue != [] && !Waits(s.tasks[s.queue[0]])
    requires w in s.tasks && Waits(s.tasks[w]) && forall v | v in s.tasks && v != t :: !Alert(s.tasks[v])
    ensures !NotStranded(Next(s, Notify(t)))
  {
    var s' := Next(s, Notify(t));
    assert w in s'.tasks && Waits(s'.tasks[w]);
    forall v | v in s'.tasks ensures !Alert(s'.tasks[v]) { assert v in s.tasks; }
  }

  lemma NotifyStranded(s: State, t: Task)
    requires Listed(s) && Enabled(s, Notify(t))
    ensures NotStranded(Next(s, Notify(t))) <==> !Wasted(s, t)
  {
    var s' := Next(s, Notify(t));
    if s.owner == None && SomeWait(s) {
      var w :| w in s.tasks && Waits(s.tasks[w]);
      assert w in s.queue;
      if Waits(s.tasks[s.queue[0]]) {
        NotifyWakes(s, t);
      } else if v :| v in s.tasks && v != t && Alert(s.tasks[v]) {
        StaysAlert(s, Notify(t), v);
      } else {
        NotifyWastes(s, t, w);
      }
    } else if w :| s'.owner == None && w in s'.tasks && Waits(s'.tasks[w]) {
      NoNewWaiter(s, Notify(t), w);
    }
  }

  /** A step strands a waiter if and only if it is a wasted notify. */
  lemma StepNotStranded(s: State, a: Action)
    requires Listed(s) && NotStranded(s) && Enabled(s, a)
    ensures NotStranded(Next(s, a)) <==> !WastedStep(s, a)
  {
    var s' := Next(s, a);
    if a.Notify? {
      NotifyStranded(s, a.t);
    } else if a.Unlock? {
      assert Alert(s'.tasks[a.t]);
    } else if s.owner == None && !a.TryLock? && !a.Acquire? {
      if w :| w in s'.tasks && Waits(s'.tasks[w]) {
        NoNewWaiter(s, a, w);
        var v :| v in s.tasks && Alert(s.tasks[v]);
        StaysAlert(s, a, v);
      }
    }
  }

  lemma RunListed(trace: seq<State>, run: seq<Action>, n: nat)
    requires IsRun(trace, run) && n < |trace|
    ensures Listed(trace[n])
  {
    for i := 0 to n
      invariant Listed(trace[i])
    {
      StepListed(trace[i], run[i]);
    }
  }

  ghost predicate WastedStep(s: State, a: Action) { a.Notify? && Wasted(s, a.t) }

  ghost predicate NoneWasted(trace: seq<State>, run: seq<Action>, n: nat)
    requires n <= |run| && |run| <= |trace|
  {
    forall i {:trigger WastedStep(trace[i], run[i])} | 0 <= i < n :: !WastedStep(trace[i], run[i])
  }

  /** Over a run, on any number of CPUs: no waiter is stranded up to the n-th state exactly when no
      notify before it was wasted. */
  lemma StrandedExactly(trace: seq<State>, run: seq<Action>, n: nat)
    requires IsRun(trace, run) && n < |trace|
    ensures (forall i | 0 <= i <= n :: NotStranded(trace[i])) <==> NoneWasted(trace, run, n)
  {
    if NoneWasted(trace, run, n) {
      for i := 0 to n
        invariant forall j | 0 <= j <= i :: NotStranded(trace[j])
      {
        assert !WastedStep(trace[i], run[i]);
        RunListed(trace, run, i);
        StepNotStranded(trace[i], run[i]);
      }
    } else {
      var i :| 0 <= i < n && WastedStep(trace[i], run[i]);
      RunListed(trace, run, i);
      NotifyStranded(trace[i], run[i].t);
      assert !NotStranded(trace[i + 1]);
    }
  }

  /** While the queue is exact, no notify is wasted. */
  lemma ExactNotWasted(s: State, t: Task)
    requires QueueOk(s) && Enabled(s, Notify(t))
    ensures !Wasted(s, t)
  {
    if w :| w in s.tasks && Waits(s.tasks[w]) {
      assert TaskOk(s, w);
      assert w in multiset(s.queue);
      assert TaskOk(s, s.queue[0]) && s.queue[0] in multiset(s.queue);
    }
  }

  /** In every run without late exchanges, on any number of CPUs, whenever the mutex is free while a task
      is blocked in its queue, an unlocker still owes its notify or a task inside the lock loop will
      look again. */
  lemma NoStrandedWaiter(trace: seq<State>, run: seq<Action>, n: nat)
    requires IsRun(trace, run) && n < |trace| && NoneLate(trace, run, n)
    ensures NotStranded(trace[n]) && QueueOk(trace[n])
  {
    QueueExactly(trace, run, n);
    forall i | 0 <= i < n ensures !WastedStep(trace[i], run[i]) {
      if run[i].Notify? { ExactNotWasted(trace[i], run[i].t); }
    }
    StrandedExactly(trace, run, n);
  }
}
