/**
 Admission and shutdown of the cache manager as a step system over any number
 of threads: operation permits guarded by a double-checked flag and a counter,
 a one-shot shutdown, the worker, and the two wait queues they block in. Each
 access of a shared word is one step; a wait condition is evaluated and the
 thread pushed under the queue's lock, as in `WaitQueue::wait_until`.
 */
module CacheLifecycle {
  import opened Options

  type Thread = nat

  datatype Lifecycle = Running | Closing | Closed

  /** Inside wait_until: about to look, holding the lock after a false look, or blocked. */
  datatype Stage = Look | Push | Asleep

  /** What a thread does once its notify_all on active_wait has found the queue empty. */
  datatype After = Leave | WorkNext | DrainNext | FinalNext

  datatype Pc =
    | Out
    // permit and OperationPermit::drop, also by the worker for its maintenance
    | Adding(worker: bool)          // saw the manager accepting
    | Checking(worker: bool)        // counted itself, about to read the flag again
    | Backing(worker: bool)         // saw it closed, about to give the count back
    | Holding(worker: bool)         // holds a permit
    | Loading(worker: bool)         // took the count to zero, about to read the flag
    | Notifying(next: After)        // inside active_wait.notify_all
    // shutdown
    | Won                           // cleared the flag first
    | Rousing(flush: bool)          // lifecycle is Closing, inside worker_wait.notify_all
    | Final(stage: Stage)           // waits for the result and for zero active operations
    | Taking
    // shutdown_flush, by the worker or by shutdown itself
    | Drain(worker: bool, stage: Stage)
    | Flushing(worker: bool)
    | Publishing(worker: bool)
    // run_worker
    | Work(stage: Stage)

  /** `winner`, `worker`, `drained` and `flushes` record history; no guard reads them. */
  datatype State = State(
    pc: map<Thread, Pc>,
    accepting: bool,
    active: nat,
    lifecycle: Lifecycle,
    workerRunning: bool,
    result: bool,                   // worker_result is Some
    activeLock: Option<Thread>,
    workerLock: Option<Thread>,
    winner: Option<Thread>,         // the thread whose shutdown cleared the flag
    worker: Option<Thread>,
    drained: bool,                  // some shutdown_flush has seen zero active operations
    flushes: nat)

  datatype Action =
    | Load(t: Thread) | Add(t: Thread) | Check(t: Thread) | Back(t: Thread)
    | Drop(t: Thread) | LoadAgain(t: Thread)
    | NotifyOne(t: Thread, u: Thread) | NotifyEnd(t: Thread)
    | Swap(t: Thread) | Close(t: Thread) | RouseOne(t: Thread, u: Thread) | RouseEnd(t: Thread)
    | LookActive(t: Thread) | PushActive(t: Thread)
    | Flush(t: Thread) | Publish(t: Thread) | Take(t: Thread)
    | StartWorker(t: Thread) | LookWork(t: Thread) | PushWork(t: Thread) | WakeWork(t: Thread)

  predicate AsleepOnActive(p: Pc) {
    (p.Drain? && p.stage == Asleep) || (p.Final? && p.stage == Asleep)
  }

  /** Blocked on active_wait, or committed to block by a look that found the condition false. */
  predicate WaitsOnActive(p: Pc) {
    (p.Drain? && p.stage != Look) || (p.Final? && p.stage != Look)
  }

  /** The condition a thread waits for on active_wait. */
  predicate Condition(s: State, p: Pc) {
    s.active == 0 && (p.Final? ==> s.result)
  }

  /** The thread is counted in active_operations. */
  predicate Counted(p: Pc) { p.Checking? || p.Backing? || p.Holding? }

  predicate Enabled(s: State, a: Action) {
    && a.t in s.pc
    && var p := s.pc[a.t];
    match a
    case Load(_) => (p == Out || p == Work(Look)) && s.accepting
    case Add(_) => p.Adding?
    case Check(_) => p.Checking?
    case Back(_) => p.Backing? && s.active > 0
    case Drop(_) => p.Holding? && s.active > 0
    case LoadAgain(_) => p.Loading?
    case NotifyOne(_, u) => p.Notifying? && s.activeLock == None && u in s.pc && AsleepOnActive(s.pc[u])
    case NotifyEnd(_) => p.Notifying? && s.activeLock == None && forall u | u in s.pc :: !AsleepOnActive(s.pc[u])
    case Swap(_) => p == Out && s.accepting
    case Close(_) => p == Won
    case RouseOne(_, u) => p.Rousing? && s.workerLock == None && u in s.pc && s.pc[u] == Work(Asleep)
    case RouseEnd(_) => p.Rousing? && s.workerLock == None && forall u | u in s.pc :: s.pc[u] != Work(Asleep)
    case LookActive(_) => (p.Drain? || p.Final?) && p.stage == Look && s.activeLock == None
    case PushActive(_) => (p.Drain? || p.Final?) && p.stage == Push
    case Flush(_) => p.Flushing?
    case Publish(_) => p.Publishing?
    case Take(_) => p == Taking
    case StartWorker(_) => p == Out && s.lifecycle == Running && !s.workerRunning
    case LookWork(_) => p == Work(Look) && s.workerLock == None
    case PushWork(_) => p == Work(Push)
    case WakeWork(_) => p == Work(Asleep)
  }

  /** The one thread whose position a step changes. */
  function Moved(a: Action): Thread {
    if a.NotifyOne? || a.RouseOne? then a.u else a.t
  }

  /** Where a thread goes on once it is through with its permit. */
  function Home(worker: bool): Pc { if worker then Work(Look) else Out }

  /** Where the moved thread goes. */
  function Goes(s: State, a: Action): Pc
    requires Enabled(s, a)
  {
    var p := s.pc[a.t];
    match a
    case Load(_) => Adding(p.Work?)
    case Add(_) => Checking(p.worker)
    case Check(_) => if s.accepting then Holding(p.worker) else Backing(p.worker)
    case Back(_) => if s.active == 1 then Notifying(if p.worker then WorkNext else Leave) else Home(p.worker)
    case Drop(_) => if s.active == 1 then Loading(p.worker) else Home(p.worker)
    case LoadAgain(_) => if s.accepting then Home(p.worker) else Notifying(if p.worker then WorkNext else Leave)
    case NotifyOne(_, u) => s.pc[u].(stage := Look)
    case NotifyEnd(_) =>
      (match p.next
       case Leave => Out
       case WorkNext => Work(Look)
       case DrainNext => Drain(false, Look)
       case FinalNext => Final(Look))
    case Swap(_) => Won
    case Close(_) => if s.lifecycle != Running then Out else Rousing(!s.workerRunning)
    case RouseOne(_, _) => Work(Look)
    case RouseEnd(_) => Notifying(if p.flush then DrainNext else FinalNext)
    case LookActive(_) =>
      if !Condition(s, p) then p.(stage := Push)
      else if p.Drain? then Flushing(p.worker)
      else Taking
    case PushActive(_) => p.(stage := Asleep)
    case Flush(_) => Publishing(p.worker)
    case Publish(_) => Notifying(if p.worker then Leave else FinalNext)
    case Take(_) => Out
    case StartWorker(_) => Work(Look)
    case LookWork(_) => if s.lifecycle != Running then Drain(true, Look) else Work(Push)
    case PushWork(_) => Work(Asleep)
    case WakeWork(_) => Work(Look)
  }

  /** What a step does to the shared words. */
  function Shared(s: State, a: Action): State
    requires Enabled(s, a)
  {
    var t := a.t;
    match a
    case Add(_) => s.(active := s.active + 1)
    case Back(_) => s.(active := s.active - 1)
    case Drop(_) => s.(active := s.active - 1)
    case Swap(_) => s.(accepting := false, winner := Some(t))
    case Close(_) => if s.lifecycle != Running then s else s.(lifecycle := Closing)
    case LookActive(_) =>
      if !Condition(s, s.pc[t]) then s.(activeLock := Some(t))
      else if s.pc[t].Drain? then s.(drained := true)
      else s
    case PushActive(_) => s.(activeLock := None)
    case Flush(_) => s.(flushes := s.flushes + 1)
    case Publish(_) => s.(result := true, workerRunning := if s.pc[t].worker then false else s.workerRunning)
    case Take(_) => if s.lifecycle != Closing then s else s.(result := false, lifecycle := Closed)
    case StartWorker(_) => s.(workerRunning := true, worker := Some(t))
    case LookWork(_) => if s.lifecycle != Running then s else s.(workerLock := Some(t))
    case PushWork(_) => s.(workerLock := None)
    case _ => s
  }

  function Next(s: State, a: Action): State
    requires Enabled(s, a)
  {
    Shared(s, a).(pc := s.pc[Moved(a) := Goes(s, a)])
  }

  ghost predicate Init(s: State) {
    && (forall t | t in s.pc :: s.pc[t] == Out)
    && s.accepting && s.active == 0 && s.lifecycle == Running && !s.workerRunning && !s.result
    && s.activeLock == None && s.workerLock == None && s.winner == None && s.worker == None && !s.drained
        && s.flushes == 0
  }

  ghost predicate IsRun(trace: seq<State>, run: seq<Action>) {
    && |trace| == |run| + 1 && Init(trace[0])
    && forall i :: 0 <= i < |run| ==> Enabled(trace[i], run[i]) && trace[i + 1] == Next(trace[i], run[i])
  }

  // ---- One shutdown, one worker, one flush ----

  predicate ShutdownSide(p: Pc) {
    || p.Won? || p.Rousing? || p.Final? || p.Taking?
    || (p.Notifying? && (p.next == DrainNext || p.next == FinalNext))
    || (p.Drain? && !p.worker) || (p.Flushing? && !p.worker) || (p.Publishing? && !p.worker)
  }

  /** The worker before it has seen the end: waiting for work, or in its maintenance with a permit. */
  predicate AtWork(p: Pc) {
    || p.Work? || p == Notifying(WorkNext)
    || ((p.Adding? || p.Checking? || p.Backing? || p.Holding? || p.Loading?) && p.worker)
  }

  predicate WorkerSide(p: Pc) {
    AtWork(p) || (p.Drain? && p.worker) || (p.Flushing? && p.worker) || (p.Publishing? && p.worker)
  }

  /** Sides and locks name their thread. */
  predicate ThreadOk(s: State, t: Thread)
    requires t in s.pc
  {
    var p := s.pc[t];
    && (ShutdownSide(p) ==> s.winner == Some(t))
    && (WorkerSide(p) ==> s.worker == Some(t) && s.workerRunning)
    && ((p.Drain? || p.Final?) && p.stage == Push <==> s.activeLock == Some(t))
    && (p == Work(Push) <==> s.workerLock == Some(t))
  }

  /** The winner still has its own flush ahead of it. */
  predicate BeforeFlush(p: Pc) {
    p == Rousing(true) || p == Notifying(DrainNext) || (p.Drain? && !p.worker) || p == Flushing(false)
  }

  /** The winner leaves, or has left, the flush to someone else or behind. */
  predicate AfterFlush(p: Pc) {
    p == Rousing(false) || p == Notifying(FinalNext) || p.Final? || p.Taking?
  }

  /** How far the winner and the worker are, phase by phase of the lifecycle. */
  ghost predicate StageOk(s: State) {
    && (s.accepting <==> s.winner == None)
    && (s.winner.Some? ==> s.winner.value in s.pc)
    && (s.workerRunning ==> s.worker.Some? && s.worker.value in s.pc && WorkerSide(s.pc[s.worker.value]))
    && match s.lifecycle
       case Running =>
         && s.flushes == 0 && !s.result && !s.drained
         && (s.winner.Some? ==> s.pc[s.winner.value] == Won)
         && (s.workerRunning ==> AtWork(s.pc[s.worker.value]))
       case Closing =>
         && s.winner.Some?
         && (s.flushes > 0 ==> s.drained)
         && var w := s.pc[s.winner.value];
            if s.workerRunning then
              && var k := s.pc[s.worker.value];
              && AfterFlush(w) && w != Taking && !s.result
              && s.flushes == (if k == Publishing(true) then 1 else 0)
              && (k == Flushing(true) ==> s.drained)
              && (k == Work(Push) || k == Work(Asleep) ==> w.Rousing?)
            else
              || (BeforeFlush(w) && s.flushes == 0 && !s.result && (w == Flushing(false) ==> s.drained))
              || (w == Publishing(false) && s.flushes == 1 && !s.result)
              || (AfterFlush(w) && s.flushes == 1 && s.result)
       case Closed =>
         && s.winner.Some? && s.flushes == 1 && s.drained && !s.workerRunning
         && !ShutdownSide(s.pc[s.winner.value])
  }

  ghost predicate SidesOk(s: State) {
    && StageOk(s)
    && forall t {:trigger ThreadOk(s, t)} | t in s.pc :: ThreadOk(s, t)
  }

  /** The facts about single threads that a step reads. */
  ghost predicate Near(s: State, a: Action) {
    && StageOk(s) && a.t in s.pc && ThreadOk(s, a.t)
    && ((a.NotifyOne? || a.RouseOne?) && a.u in s.pc ==> ThreadOk(s, a.u))
    && (s.workerRunning ==> ThreadOk(s, s.worker.value))
    && (s.winner.Some? ==> ThreadOk(s, s.winner.value))
  }

  /** Steps of permit and of OperationPermit::drop. */
  predicate OnPermits(a: Action) {
    a.Load? || a.Add? || a.Check? || a.Back? || a.Drop? || a.LoadAgain?
  }

  /** Steps on active_wait. */
  predicate OnActiveWait(a: Action) {
    a.NotifyOne? || a.NotifyEnd? || a.LookActive? || a.PushActive?
  }

  lemma PermitThread(s: State, a: Action, t: Thread)
    requires Near(s, a) && Enabled(s, a) && OnPermits(a) && t in s.pc && ThreadOk(s, t)
    ensures t in Next(s, a).pc && ThreadOk(Next(s, a), t)
  {
  }

  lemma PermitStage(s: State, a: Action)
    requires Near(s, a) && Enabled(s, a) && OnPermits(a)
    ensures StageOk(Next(s, a))
  {
  }

  lemma ActiveWaitThread(s: State, a: Action, t: Thread)
    requires Near(s, a) && Enabled(s, a) && OnActiveWait(a) && t in s.pc && ThreadOk(s, t)
    ensures t in Next(s, a).pc && ThreadOk(Next(s, a), t)
  {
  }

  lemma NotifyStage(s: State, a: Action)
    requires Near(s, a) && Enabled(s, a) && (a.NotifyOne? || a.NotifyEnd?)
    ensures StageOk(Next(s, a))
  {
  }

  lemma ActiveWaitStage(s: State, a: Action)
    requires Near(s, a) && Enabled(s, a) && OnActiveWait(a)
    ensures StageOk(Next(s, a))
  {
    if a.NotifyOne? || a.NotifyEnd? { NotifyStage(s, a); }
  }

  /** Steps of the worker, and on worker_wait. */
  predicate OnWorkerWait(a: Action) {
    a.StartWorker? || a.LookWork? || a.PushWork? || a.WakeWork? || a.RouseOne? || a.RouseEnd?
  }

  lemma WorkerThread(s: State, a: Action, t: Thread)
    requires Near(s, a) && Enabled(s, a) && OnWorkerWait(a) && t in s.pc && ThreadOk(s, t)
    ensures t in Next(s, a).pc && ThreadOk(Next(s, a), t)
  {
  }

  lemma WorkerStage(s: State, a: Action)
    requires Near(s, a) && Enabled(s, a) && OnWorkerWait(a)
    ensures StageOk(Next(s, a))
  {
  }

  lemma LifecycleThread(s: State, a: Action, t: Thread)
    requires Near(s, a) && Enabled(s, a) && !OnPermits(a) && !OnActiveWait(a) && t in s.pc && ThreadOk(s, t)
    ensures t in Next(s, a).pc && ThreadOk(Next(s, a), t)
  {
    if OnWorkerWait(a) { WorkerThread(s, a, t); }
  }

  lemma LifecycleStage(s: State, a: Action)
    requires Near(s, a) && Enabled(s, a) && !OnPermits(a) && !OnActiveWait(a)
    ensures StageOk(Next(s, a))
  {
    if OnWorkerWait(a) { WorkerStage(s, a); }
  }

  lemma StepSides(s: State, a: Action)
    requires SidesOk(s) && Enabled(s, a)
    ensures SidesOk(Next(s, a))
  {
    var s' := Next(s, a);
    assert Near(s, a);
    if OnPermits(a) {
      PermitStage(s, a);
    } else if OnActiveWait(a) {
      ActiveWaitStage(s, a);
    } else {
      LifecycleStage(s, a);
    }
    forall t | t in s'.pc ensures ThreadOk(s', t) {
      assert ThreadOk(s, t);
      if OnPermits(a) {
        PermitThread(s, a, t);
      } else if OnActiveWait(a) {
        ActiveWaitThread(s, a, t);
      } else {
        LifecycleThread(s, a, t);
      }
    }
  }

  // ---- Permits: the counter is exact, and none is granted once a drain has seen zero ----

  function CountedSet(pc: map<Thread, Pc>): set<Thread> {
    set t | t in pc && Counted(pc[t])
  }

  ghost predicate PermitsOk(s: State) {
    && s.active == |CountedSet(s.pc)|
    && (s.drained ==> forall t | t in s.pc :: !s.pc[t].Holding?)
  }

  function Weight(p: Pc): nat { if Counted(p) then 1 else 0 }

  lemma StepWeight(s: State, a: Action)
    requires Enabled(s, a)
    ensures Moved(a) in s.pc && Shared(s, a).active == s.active + Weight(Goes(s, a)) - Weight(s.pc[Moved(a)])
  {
  }

  lemma CountMoves(pc: map<Thread, Pc>, m: Thread, p: Pc)
    requires m in pc
    ensures |CountedSet(pc[m := p])| == |CountedSet(pc)| + Weight(p) - Weight(pc[m])
  {
    var others := set t | t in pc && t != m && Counted(pc[t]);
    CountOthers(pc, m, others);
    CountOthers(pc[m := p], m, others);
  }

  lemma CountOthers(pc: map<Thread, Pc>, m: Thread, others: set<Thread>)
    requires m in pc && m !in others
    requires forall t | t != m :: t in others <==> t in pc && Counted(pc[t])
    ensures |CountedSet(pc)| == |others| + Weight(pc[m])
  {
    if Counted(pc[m]) {
      assert CountedSet(pc) == others + {m};
    } else {
      assert CountedSet(pc) == others;
    }
  }

  lemma NoneCounted(s: State)
    requires PermitsOk(s) && s.active == 0
    ensures forall t | t in s.pc :: !s.pc[t].Holding?
  {
    assert forall t | t in s.pc && Counted(s.pc[t]) :: t in CountedSet(s.pc);
  }

  lemma DrainedIsClosed(s: State)
    requires StageOk(s) && s.drained
    ensures !s.accepting
  {
  }

  lemma StepPermits(s: State, a: Action)
    requires SidesOk(s) && PermitsOk(s) && Enabled(s, a)
    ensures PermitsOk(Next(s, a))
  {
    var s' := Next(s, a);
    StepWeight(s, a);
    CountMoves(s.pc, Moved(a), Goes(s, a));
    if s'.drained {
      if s.drained { DrainedIsClosed(s); } else { NoneCounted(s); }
    }
  }

  // ---- No waiter of active_wait misses its notify ----

  /** The thread is inside notify_all, or has just taken the count to zero and will be. */
  predicate WillNotify(p: Pc) { p.Notifying? || p.Loading? }

  ghost predicate NoMissedNotify(s: State) {
    (exists w | w in s.pc :: WaitsOnActive(s.pc[w]) && Condition(s, s.pc[w]))
    ==> exists t | t in s.pc :: WillNotify(s.pc[t])
  }

  lemma WaiterMeansClosed(s: State, w: Thread)
    requires SidesOk(s) && w in s.pc && (s.pc[w].Drain? || s.pc[w].Final?)
    ensures s.lifecycle == Closing && !s.accepting
  {
    assert ThreadOk(s, w);
  }

  /** A notifier goes on notifying until no waiter is blocked or about to block. */
  lemma NotifierStays(s: State, a: Action, t: Thread)
    requires Enabled(s, a) && t in s.pc && WillNotify(s.pc[t]) && !s.accepting
    ensures t in Next(s, a).pc && (WillNotify(Next(s, a).pc[t]) || (a.NotifyEnd? && a.t == t))
  {
  }

  lemma NotifyEndLeavesNone(s: State, t: Thread, w: Thread)
    requires SidesOk(s) && Enabled(s, NotifyEnd(t)) && w in s.pc
    ensures !WaitsOnActive(Next(s, NotifyEnd(t)).pc[w])
  {
    assert ThreadOk(s, w);
  }

  /** A thread that comes to wait has found its condition false. */
  lemma NewWaiter(s: State, a: Action)
    requires Enabled(s, a) && WaitsOnActive(Goes(s, a)) && Condition(Shared(s, a), Goes(s, a))
    ensures Moved(a) in s.pc && WaitsOnActive(s.pc[Moved(a)]) && Condition(s, s.pc[Moved(a)])
  {
  }

  /** The count reaches zero, and the result appears, only by a step whose thread will notify. */
  lemma NotifierAppears(s: State, a: Action)
    requires Enabled(s, a)
    ensures WillNotify(Goes(s, a)) || (Shared(s, a).active == 0 ==> s.active == 0)
    ensures WillNotify(Goes(s, a)) || (Shared(s, a).result ==> s.result)
    ensures WillNotify(Goes(s, a)) ==> Moved(a) == a.t
  {
  }

  lemma StepNoMissedNotify(s: State, a: Action)
    requires SidesOk(s) && NoMissedNotify(s) && Enabled(s, a)
    ensures NoMissedNotify(Next(s, a))
  {
    var s' := Next(s, a);
    if w :| w in s'.pc && WaitsOnActive(s'.pc[w]) && Condition(s', s'.pc[w]) {
      NotifierAppears(s, a);
      if WillNotify(Goes(s, a)) {
        assert WillNotify(s'.pc[a.t]);
      } else {
        if w == Moved(a) { NewWaiter(s, a); }
        assert WaitsOnActive(s.pc[w]) && Condition(s, s.pc[w]);
        WaiterMeansClosed(s, w);
        var t :| t in s.pc && WillNotify(s.pc[t]);
        NotifierStays(s, a, t);
        if a.NotifyEnd? { NotifyEndLeavesNone(s, a.t, w); }
      }
    }
  }

  // ---- Whole runs ----

  ghost predicate Inv(s: State) {
    SidesOk(s) && PermitsOk(s) && NoMissedNotify(s)
  }

  lemma RunInv(trace: seq<State>, run: seq<Action>, n: nat)
    requires IsRun(trace, run) && n < |trace|
    ensures Inv(trace[n])
  {
    assert CountedSet(trace[0].pc) == {};
    for i := 0 to n
      invariant Inv(trace[i])
    {
      StepSides(trace[i], run[i]);
      StepPermits(trace[i], run[i]);
      StepNoMissedNotify(trace[i], run[i]);
    }
  }

  lemma StepHistory(s: State, a: Action)
    requires Enabled(s, a)
    ensures var s' := Next(s, a);
            && (s.drained ==> s'.drained)
            && (s.winner.Some? && !s.accepting ==> s'.winner == s.winner)
  {
  }

  /** From the moment a drain has seen zero active operations, no thread holds a permit, and no later
      step grants one. */
  lemma NoPermitAfterDrain(trace: seq<State>, run: seq<Action>, m: nat, n: nat, t: Thread)
    requires IsRun(trace, run) && m <= n < |trace| && trace[m].drained && t in trace[n].pc
    ensures !trace[n].pc[t].Holding? && !trace[n].accepting
  {
    for i := m to n
      invariant trace[i].drained
    {
      StepHistory(trace[i], run[i]);
    }
    RunInv(trace, run, n);
    DrainedIsClosed(trace[n]);
  }

  /** Only the thread that cleared the flag ever acts for shutdown, and it clears it once. */
  lemma OneShutdown(trace: seq<State>, run: seq<Action>, m: nat, n: nat, t: Thread)
    requires IsRun(trace, run) && m <= n < |trace| && trace[m].winner.Some?
    requires t in trace[n].pc && ShutdownSide(trace[n].pc[t])
    ensures trace[m].winner == trace[n].winner == Some(t)
  {
    for i := m to n
      invariant trace[i].winner == trace[m].winner
    {
      RunInv(trace, run, i);
      StepHistory(trace[i], run[i]);
    }
    RunInv(trace, run, n);
    assert ThreadOk(trace[n], t);
  }

  /** The flush runs at most once, only with every permit returned, and exactly once by the time a
      result is published or the manager is closed; taking the result always finds one. */
  lemma OneFlush(trace: seq<State>, run: seq<Action>, n: nat)
    requires IsRun(trace, run) && n < |trace|
    ensures trace[n].flushes <= 1
    ensures trace[n].result || trace[n].lifecycle == Closed ==> trace[n].flushes == 1
    ensures trace[n].flushes > 0 ==> trace[n].drained
    ensures forall t | t in trace[n].pc && trace[n].pc[t] == Taking :: trace[n].result && trace[n].lifecycle == Closing
    ensures forall t | t in trace[n].pc && trace[n].pc[t].Flushing? :: trace[n].drained && trace[n].flushes == 0
  {
    RunInv(trace, run, n);
    forall t | t in trace[n].pc ensures ThreadOk(trace[n], t) {}
  }

  /** No thread stays blocked on active_wait with its condition true unless a notify is on its way;
      the worker is not left asleep once the lifecycle has changed. */
  lemma NoLostWakeup(trace: seq<State>, run: seq<Action>, n: nat)
    requires IsRun(trace, run) && n < |trace|
    ensures NoMissedNotify(trace[n])
    ensures trace[n].active == |CountedSet(trace[n].pc)|
    ensures forall t | t in trace[n].pc && Counted(trace[n].pc[t]) :: trace[n].active > 0
    ensures forall t | t in trace[n].pc && trace[n].pc[t] == Work(Asleep) && trace[n].lifecycle != Running ::
              trace[n].winner.Some? && trace[n].winner.value in trace[n].pc
              && trace[n].pc[trace[n].winner.value].Rousing?
  {
    RunInv(trace, run, n);
    forall t | t in trace[n].pc ensures ThreadOk(trace[n], t)
        && (Counted(trace[n].pc[t]) ==> t in CountedSet(trace[n].pc)) {}
  }

  // ---- A permit is granted exactly while the manager accepts ----

  predicate Swapped(run: seq<Action>, n: nat)
    requires n <= |run|
  {
    exists i | 0 <= i < n :: run[i].Swap?
  }

  lemma StepAccepting(s: State, a: Action)
    requires Enabled(s, a)
    ensures Next(s, a).accepting <==> s.accepting && !a.Swap?
  {
  }

  /** The manager accepts exactly until a shutdown clears the flag. */
  lemma {:induction false} AcceptingExactly(trace: seq<State>, run: seq<Action>, n: nat)
    requires IsRun(trace, run) && n <= |run|
    ensures trace[n].accepting <==> !Swapped(run, n)
  {
    if n > 0 {
      AcceptingExactly(trace, run, n - 1);
      StepAccepting(trace[n - 1], run[n - 1]);
    }
  }

  /** Where a thread is that asks for a permit, gives one back, or has none. */
  predicate OnItsWay(p: Pc) { p.Adding? || p.Checking? || p.Backing? || p.Holding? || p.Loading? }

  /** No other thread's step moves it. */
  lemma OthersPass(s: State, a: Action, t: Thread)
    requires Enabled(s, a) && a.t != t && t in s.pc && OnItsWay(s.pc[t])
    ensures t in Next(s, a).pc && Next(s, a).pc[t] == s.pc[t]
  {
  }

  /** Thread t takes step j after step i, and none in between. */
  ghost predicate NextStepOf(run: seq<Action>, i: nat, j: nat, t: Thread) {
    i < j < |run| && run[i].t == t && run[j].t == t && forall m | i < m < j :: run[m].t != t
  }

  lemma PassesOver(trace: seq<State>, run: seq<Action>, i: nat, j: nat, t: Thread)
    requires IsRun(trace, run) && NextStepOf(run, i, j, t) && t in trace[i + 1].pc && OnItsWay(trace[i + 1].pc[t])
    ensures t in trace[j].pc && trace[j].pc[t] == trace[i + 1].pc[t]
  {
    for m := i + 1 to j
      invariant t in trace[m].pc && trace[m].pc[t] == trace[i + 1].pc[t]
    {
      OthersPass(trace[m], run[m], t);
    }
  }

  /** A thread that saw the manager accepting counts itself, looks again, and then has a permit exactly
      if no shutdown has cleared the flag by then; otherwise it gives its count back at once. */
  lemma PermitExactly(trace: seq<State>, run: seq<Action>, i: nat, j: nat, k: nat, t: Thread)
    requires IsRun(trace, run) && NextStepOf(run, i, j, t) && NextStepOf(run, j, k, t) && run[i] == Load(t)
    ensures run[j] == Add(t) && run[k] == Check(t)
    ensures var p := trace[k + 1].pc[t]; if Swapped(run, k) then p.Backing? else p.Holding?
  {
    PassesOver(trace, run, i, j, t);
    PermitPath(trace[j], run[j]);
    PassesOver(trace, run, j, k, t);
    PermitPath(trace[k], run[k]);
    AcceptingExactly(trace, run, k);
  }

  /** The way to a permit and back, step by step. */
  lemma PermitPath(s: State, a: Action)
    requires Enabled(s, a)
    ensures s.pc[a.t].Adding? ==> a.Add? && Next(s, a).pc[a.t].Checking?
    ensures s.pc[a.t].Checking? ==>
              a.Check? && if s.accepting then Next(s, a).pc[a.t].Holding? else Next(s, a).pc[a.t].Backing?
    ensures s.pc[a.t].Holding? ==> a.Drop? && Next(s, a).active == s.active - 1
    ensures s.pc[a.t].Backing? ==> a.Back? && Next(s, a).active == s.active - 1
  {
  }

  /** A thread that holds a permit gives it back in its next step; one that was refused, its count. */
  lemma PermitReturned(trace: seq<State>, run: seq<Action>, k: nat, l: nat, t: Thread)
    requires IsRun(trace, run) && NextStepOf(run, k, l, t) && run[k] == Check(t)
    ensures run[l] == if trace[k].accepting then Drop(t) else Back(t)
    ensures trace[l + 1].active == trace[l].active - 1
  {
    PermitPath(trace[k], run[k]);
    PassesOver(trace, run, k, l, t);
    PermitPath(trace[l], run[l]);
  }

  ghost predicate RefusedClosed(s: State) { forall t | t in s.pc && s.pc[t].Backing? :: !s.accepting }

  lemma StepRefusedClosed(s: State, a: Action)
    requires RefusedClosed(s) && Enabled(s, a)
    ensures RefusedClosed(Next(s, a))
  {
    StepAccepting(s, a);
  }

  /** No thread is refused while the manager accepts. */
  lemma RefusedOnlyWhenClosed(trace: seq<State>, run: seq<Action>, n: nat, t: Thread)
    requires IsRun(trace, run) && n < |trace| && t in trace[n].pc && trace[n].pc[t].Backing?
    ensures !trace[n].accepting && Swapped(run, n)
  {
    for i := 0 to n
      invariant RefusedClosed(trace[i])
    {
      StepRefusedClosed(trace[i], run[i]);
    }
    AcceptingExactly(trace, run, n);
  }

  // ---- Shutdown is never stuck ----

  /** Some thread can take a step other than the worker's timeout. */
  ghost predicate CanStep(s: State) {
    exists a :: Enabled(s, a) && !a.WakeWork?
  }

  lemma LockHolderSteps(s: State)
    requires SidesOk(s) && s.activeLock.Some? && s.activeLock.value in s.pc
    ensures CanStep(s)
  {
    assert ThreadOk(s, s.activeLock.value);
    assert Enabled(s, PushActive(s.activeLock.value));
  }

  lemma WorkLockHolderSteps(s: State)
    requires SidesOk(s) && s.workerLock.Some? && s.workerLock.value in s.pc
    ensures CanStep(s)
  {
    assert ThreadOk(s, s.workerLock.value);
    assert Enabled(s, PushWork(s.workerLock.value));
  }

  /** The holder of a queue's lock is one of the threads. */
  ghost predicate LocksOk(s: State) {
    && (s.activeLock.Some? ==> s.activeLock.value in s.pc)
    && (s.workerLock.Some? ==> s.workerLock.value in s.pc)
  }

  lemma StepLocks(s: State, a: Action)
    requires LocksOk(s) && Enabled(s, a)
    ensures LocksOk(Next(s, a))
  {
  }

  lemma NotifierSteps(s: State, t: Thread)
    requires SidesOk(s) && LocksOk(s) && t in s.pc && WillNotify(s.pc[t])
    ensures CanStep(s)
  {
    if s.pc[t].Loading? {
      assert Enabled(s, LoadAgain(t));
    } else if s.activeLock.Some? {
      LockHolderSteps(s);
    } else if u :| u in s.pc && AsleepOnActive(s.pc[u]) {
      assert Enabled(s, NotifyOne(t, u));
    } else {
      assert Enabled(s, NotifyEnd(t));
    }
  }

  lemma CountedSteps(s: State)
    requires PermitsOk(s) && s.active > 0
    ensures CanStep(s)
  {
    var t :| t in CountedSet(s.pc);
    match s.pc[t]
    case Checking(_) => assert Enabled(s, Check(t));
    case Backing(_) => assert Enabled(s, Back(t));
    case Holding(_) => assert Enabled(s, Drop(t));
  }

  /** A waiter of active_wait steps, or the thread it waits for does, or its condition is false. */
  lemma WaiterSteps(s: State, w: Thread)
    requires Inv(s) && LocksOk(s) && w in s.pc && (s.pc[w].Drain? || s.pc[w].Final?)
    ensures CanStep(s) || (s.pc[w].Final? && !s.result)
  {
    if s.activeLock.Some? {
      LockHolderSteps(s);
    } else if s.active > 0 {
      CountedSteps(s);
    } else if s.pc[w].stage == Look {
      assert Enabled(s, LookActive(w));
    } else if Condition(s, s.pc[w]) {
      var t :| t in s.pc && WillNotify(s.pc[t]);
      NotifierSteps(s, t);
    }
  }

  lemma PermitSteps(s: State, k: Thread)
    requires PermitsOk(s) && k in s.pc
    requires s.pc[k].Adding? || s.pc[k].Checking? || s.pc[k].Backing? || s.pc[k].Holding? || s.pc[k].Loading?
    ensures CanStep(s)
  {
    match s.pc[k]
    case Adding(_) => assert Enabled(s, Add(k));
    case Loading(_) => assert Enabled(s, LoadAgain(k));
    case _ =>
      assert k in CountedSet(s.pc);
      CountedSteps(s);
  }

  lemma OnlyLook(stage: Stage)
    requires stage != Push && stage != Asleep
    ensures stage == Look
  {
  }

  lemma LookerSteps(s: State, k: Thread, stage: Stage)
    requires SidesOk(s) && k in s.pc && s.pc[k] == Work(stage) && stage != Asleep && s.workerLock == None
    ensures CanStep(s)
  {
    assert ThreadOk(s, k);
    OnlyLook(stage);
    assert Enabled(s, LookWork(k));
  }

  lemma WorkerSteps(s: State, k: Thread)
    requires Inv(s) && LocksOk(s) && k in s.pc && WorkerSide(s.pc[k]) && s.pc[k] != Work(Asleep)
    ensures CanStep(s)
  {
    match s.pc[k]
    case Notifying(_) => NotifierSteps(s, k);
    case Drain(_, _) => WaiterSteps(s, k);
    case Flushing(_) => assert Enabled(s, Flush(k));
    case Publishing(_) => assert Enabled(s, Publish(k));
    case Work(stage) =>
      if s.workerLock.Some? { WorkLockHolderSteps(s); } else { LookerSteps(s, k, stage); }
    case _ => PermitSteps(s, k);
  }

  lemma WinnerSteps(s: State, w: Thread)
    requires Inv(s) && LocksOk(s) && w in s.pc && ShutdownSide(s.pc[w])
    ensures CanStep(s)
  {
    match s.pc[w]
    case Won => assert Enabled(s, Close(w));
    case Rousing(_) =>
      if s.workerLock.Some? {
        WorkLockHolderSteps(s);
      } else if u :| u in s.pc && s.pc[u] == Work(Asleep) {
        assert Enabled(s, RouseOne(w, u));
      } else {
        assert Enabled(s, RouseEnd(w));
      }
    case Taking => assert Enabled(s, Take(w));
    case Notifying(_) => NotifierSteps(s, w);
    case Flushing(_) => assert Enabled(s, Flush(w));
    case Publishing(_) => assert Enabled(s, Publish(w));
    case Drain(_, _) => WaiterSteps(s, w);
    case Final(_) =>
      WaiterSteps(s, w);
      if !s.result {
        WaiterMeansClosed(s, w);
        assert ThreadOk(s, w);
        WorkerSteps(s, s.worker.value);
      }
  }

  /** While a shutdown is under way, some thread can move: no schedule leads it into a deadlock. */
  lemma ShutdownNeverStuck(trace: seq<State>, run: seq<Action>, n: nat, t: Thread)
    requires IsRun(trace, run) && n < |trace| && t in trace[n].pc && ShutdownSide(trace[n].pc[t])
    ensures CanStep(trace[n])
  {
    for i := 0 to n
      invariant LocksOk(trace[i])
    {
      StepLocks(trace[i], run[i]);
    }
    RunInv(trace, run, n);
    WinnerSteps(trace[n], t);
  }
}
