/**
 The blocking and wakeup protocol of xtask as a step system: any number of
 tasks, CPUs and wait queues; every atomic access of the source that another
 CPU can observe is one step. Atomics are sequentially consistent here.

 A CPU with interrupts enabled is at `Home`, executing the code of its current
 task; every other phase is inside an interrupts-off region. `Action` names
 the step, `Enabled` its guard and `Next` its effect.
 */
module TaskModel {
  import opened Options
  import opened Queues

  type Task = nat
  type Cpu = nat
  type QueueId = nat

  datatype TaskState = Running | Ready | Blocked | Exited

  /** The waiting call a task is inside, from its entry to its return. */
  datatype Wait =
    | NoWait
    | Plain(wq: QueueId)                           // WaitQueue::wait
    | Until(wq: QueueId)                           // WaitQueue::wait_until
    | Timed(wq: QueueId, deadline: nat)            // WaitQueue::wait_timeout
    | TimedUntil(wq: QueueId, deadline: nat)       // WaitQueue::wait_timeout_until
    | Sleep(deadline: nat)                         // sleep_until
  {
    predicate HasQueue() { Plain? || Until? || Timed? || TimedUntil? }
    predicate HasDeadline() { Timed? || TimedUntil? || Sleep? }
  }

  /** `blocks`, `wakes` and `inserts` count the transitions to Blocked, the
      successful Blocked-to-Ready exchanges, and the ready-queue insertions
      made by wakers; no guard reads them. */
  datatype TaskInfo = TaskInfo(
    state: TaskState, onCpu: bool, inWaitQueue: bool, ticket: nat, wait: Wait,
    idleOf: Option<Cpu>, blocks: nat, wakes: nat, inserts: nat)

  /** unblock_task: the state exchange, the spin on `on_cpu`, the insertion. */
  datatype WakeStage = Exchange | Spin | Insert

  datatype Phase =
    | Home
    | Checked                       // wait_timeout_until read the clock before its deadline
    | Blocking(wq: QueueId)         // state is Blocked, the queue lock is held, not pushed yet
    | Putting                       // state exchanged Running-to-Ready, not inserted yet
    | Resched
    | Switching(next: Task)
    | Finishing(prev: Task)         // next task is current, prev.on_cpu not yet cleared
    | Waking(task: Task, stage: WakeStage, lock: Option<QueueId>)

  datatype CpuState = CpuState(current: Task, idle: Task, phase: Phase, ready: multiset<Task>)

  datatype Event = Event(deadline: nat, ticket: nat, task: Task, cpu: Cpu)

  datatype State = State(
    tasks: map<Task, TaskInfo>,
    cpus: map<Cpu, CpuState>,
    queues: map<QueueId, seq<Task>>,
    locks: map<QueueId, Cpu>,
    events: set<Event>,
    now: nat,
    nextTicket: nat)

  datatype Action =
    | Tick
    | Spawn(c: Cpu, t: Task, target: Cpu)
    | Yield(c: Cpu)                                    // yield_current, preempt_resched
    | PutPrev(c: Cpu)
    | Pick(c: Cpu, t: Task)
    | Switch(c: Cpu)
    | Finish(c: Cpu)
    | PlainBegin(c: Cpu, wq: QueueId)
    | UntilBegin(c: Cpu, wq: QueueId)
    | UntilBlock(c: Cpu)
    | TimedBegin(c: Cpu, wq: QueueId, deadline: nat)
    | TimedUntilBegin(c: Cpu, wq: QueueId, deadline: nat)
    | TimedUntilCheck(c: Cpu)
    | TimedUntilBlock(c: Cpu)
    | SleepBegin(c: Cpu, deadline: nat)
    | Push(c: Cpu)
    | Return(c: Cpu)                                   // cancel_events and leave the wait
    | Notify(c: Cpu, wq: QueueId, i: nat)              // pop entry i, clear its flag
    | Fire(c: Cpu, e: Event)                           // one expired timer event
    | WakeExchange(c: Cpu)
    | WakeSpinDone(c: Cpu)
    | WakeInsert(c: Cpu, target: Cpu)
    | Exit(c: Cpu)
    | ExitResched(c: Cpu)

  /** The steps of a task in a waiting call, and those of a waker. */
  predicate Waits(a: Action) {
    || a.PlainBegin? || a.UntilBegin? || a.UntilBlock? || a.TimedBegin? || a.TimedUntilBegin? || a.TimedUntilCheck?
    || a.TimedUntilBlock? || a.SleepBegin? || a.Push? || a.Return?
  }

  predicate Wakes(a: Action) {
    a.Notify? || a.Fire? || a.WakeExchange? || a.WakeSpinDone? || a.WakeInsert?
  }

  function Queue(s: State, w: QueueId): seq<Task> {
    if w in s.queues then s.queues[w] else []
  }

  predicate IsIdle(s: State, t: Task)
    requires t in s.tasks
  {
    s.tasks[t].idleOf.Some?
  }

  /** The current task of `c` runs its own code with interrupts enabled. */
  predicate AtHome(s: State, c: Cpu) {
    && c in s.cpus && s.cpus[c].phase == Home
    && s.cpus[c].current in s.tasks
    && s.tasks[s.cpus[c].current].state == Running
  }

  function CurrentInfo(s: State, c: Cpu): TaskInfo
    requires c in s.cpus && s.cpus[c].current in s.tasks
  {
    s.tasks[s.cpus[c].current]
  }

  predicate FreeHome(s: State, c: Cpu) {
    AtHome(s, c) && CurrentInfo(s, c).wait == NoWait
  }

  /** blocked_resched and sleep_until assert that the blocking task is not idle. */
  predicate MayBlock(s: State, c: Cpu) {
    AtHome(s, c) && !IsIdle(s, s.cpus[c].current)
  }

  predicate Enabled(s: State, a: Action) {
    match a
    case Tick => true
    case Spawn(c, t, target) => FreeHome(s, c) && t !in s.tasks && target in s.cpus
    case Yield(c) => AtHome(s, c)
    case PutPrev(c) => c in s.cpus && s.cpus[c].phase == Putting
    case Pick(c, t) =>
      && c in s.cpus && s.cpus[c].phase == Resched
      && if s.cpus[c].ready == multiset{} then t == s.cpus[c].idle else t in s.cpus[c].ready
    case Switch(c) => c in s.cpus && s.cpus[c].phase.Switching? && s.cpus[c].phase.next in s.tasks
    case Finish(c) => c in s.cpus && s.cpus[c].phase.Finishing? && s.cpus[c].phase.prev in s.tasks
    case PlainBegin(c, wq) => MayBlock(s, c) && CurrentInfo(s, c).wait == NoWait && wq !in s.locks
    case UntilBegin(c, wq) => MayBlock(s, c) && CurrentInfo(s, c).wait == NoWait
    case UntilBlock(c) =>
      MayBlock(s, c) && CurrentInfo(s, c).wait.Until? && CurrentInfo(s, c).wait.wq !in s.locks
    case TimedBegin(c, wq, deadline) =>
      MayBlock(s, c) && CurrentInfo(s, c).wait == NoWait && wq !in s.locks
    case TimedUntilBegin(c, wq, deadline) => MayBlock(s, c) && CurrentInfo(s, c).wait == NoWait
    case TimedUntilCheck(c) =>
      && MayBlock(s, c) && CurrentInfo(s, c).wait.TimedUntil?
      && s.now < CurrentInfo(s, c).wait.deadline
    case TimedUntilBlock(c) =>
      && c in s.cpus && s.cpus[c].phase == Checked && s.cpus[c].current in s.tasks
      && CurrentInfo(s, c).wait.TimedUntil? && CurrentInfo(s, c).wait.wq !in s.locks
    case SleepBegin(c, deadline) =>
      MayBlock(s, c) && CurrentInfo(s, c).wait == NoWait && s.now < deadline
    case Push(c) => c in s.cpus && s.cpus[c].phase.Blocking? && s.cpus[c].current in s.tasks
    case Return(c) =>
      && AtHome(s, c) && CurrentInfo(s, c).wait != NoWait
      && (CurrentInfo(s, c).wait.HasQueue() && CurrentInfo(s, c).inWaitQueue ==>
            CurrentInfo(s, c).wait.wq !in s.locks)
    case Notify(c, wq, i) =>
      && c in s.cpus && s.cpus[c].phase == Home && s.cpus[c].current in s.tasks
      && (CurrentInfo(s, c).state == Exited || CurrentInfo(s, c).state == Running)
      && wq !in s.locks && i < |Queue(s, wq)| && Queue(s, wq)[i] in s.tasks
    case Fire(c, e) =>
      AtHome(s, c) && e in s.events && e.cpu == c && e.deadline <= s.now && e.task in s.tasks
    case WakeExchange(c) =>
      && c in s.cpus && s.cpus[c].phase.Waking? && s.cpus[c].phase.stage == Exchange
      && s.cpus[c].phase.task in s.tasks
    case WakeSpinDone(c) =>
      && c in s.cpus && s.cpus[c].phase.Waking? && s.cpus[c].phase.stage == Spin
      && s.cpus[c].phase.task in s.tasks && !s.tasks[s.cpus[c].phase.task].onCpu
    case WakeInsert(c, target) =>
      && c in s.cpus && s.cpus[c].phase.Waking? && s.cpus[c].phase.stage == Insert
      && s.cpus[c].phase.task in s.tasks && target in s.cpus
    case Exit(c) => FreeHome(s, c) && !IsIdle(s, s.cpus[c].current)
    case ExitResched(c) =>
      && c in s.cpus && s.cpus[c].phase == Home && s.cpus[c].current in s.tasks
      && CurrentInfo(s, c).state == Exited
  }

  function WithPhase(s: State, c: Cpu, p: Phase): State
    requires c in s.cpus
  {
    s.(cpus := s.cpus[c := s.cpus[c].(phase := p)])
  }

  function WithTask(s: State, t: Task, info: TaskInfo): State {
    s.(tasks := s.tasks[t := info])
  }

  function Unlock(s: State, lock: Option<QueueId>): State {
    if lock.Some? then s.(locks := s.locks - {lock.value}) else s
  }

  /** set_alarm_wakeup: a fresh ticket for the current task and its event. */
  function Alarm(s: State, c: Cpu, deadline: nat): State
    requires c in s.cpus && s.cpus[c].current in s.tasks
  {
    var t := s.cpus[c].current;
    s.(tasks := s.tasks[t := s.tasks[t].(ticket := s.nextTicket)],
       events := s.events + {Event(deadline, s.nextTicket, t, c)},
       nextTicket := s.nextTicket + 1)
  }

  /** Marks the current task Blocked, inside wait `w`. */
  function Block(s: State, c: Cpu, w: Wait, p: Phase): State
    requires c in s.cpus && s.cpus[c].current in s.tasks
  {
    var t := s.cpus[c].current;
    WithPhase(WithTask(s, t, s.tasks[t].(state := Blocked, wait := w, blocks := s.tasks[t].blocks + 1)), c, p)
  }

  function Lock(s: State, w: QueueId, c: Cpu): State {
    s.(locks := s.locks[w := c])
  }

  function FreshTask(): TaskInfo {
    TaskInfo(Ready, false, false, 0, NoWait, None, 0, 0, 0)
  }

  predicate HasCurrent(s: State, c: Cpu) {
    c in s.cpus && s.cpus[c].current in s.tasks
  }

  /** add_task: a fresh task joins the ready queue of `target`. */
  function DoSpawn(s: State, t: Task, target: Cpu): State
    requires target in s.cpus
  {
    var k := s.cpus[target];
    WithTask(s, t, FreshTask()).(cpus := s.cpus[target := k.(ready := k.ready + multiset{t})])
  }

  /** put_task_with_state: the current task exchanges Running for Ready. */
  function DoYield(s: State, c: Cpu): State
    requires HasCurrent(s, c)
  {
    var t := s.cpus[c].current;
    WithPhase(WithTask(s, t, s.tasks[t].(state := Ready)), c, if IsIdle(s, t) then Resched else Putting)
  }

  /** put_prev_task. */
  function DoPutPrev(s: State, c: Cpu): State
    requires c in s.cpus
  {
    var k := s.cpus[c];
    s.(cpus := s.cpus[c := k.(phase := Resched, ready := k.ready + multiset{k.current})])
  }

  /** pick_next_task, or the idle task when nothing is ready. */
  function DoPick(s: State, c: Cpu, t: Task): State
    requires c in s.cpus
  {
    var k := s.cpus[c];
    s.(cpus := s.cpus[c := k.(phase := Switching(t), ready := k.ready - multiset{t})])
  }

  /** switch_to, up to and including set_current. */
  function DoSwitch(s: State, c: Cpu): State
    requires c in s.cpus && s.cpus[c].phase.Switching? && s.cpus[c].phase.next in s.tasks
  {
    var k := s.cpus[c];
    var t := k.phase.next;
    if t == k.current then
      WithPhase(WithTask(s, t, s.tasks[t].(state := Running)), c, Home)
    else
      WithTask(s, t, s.tasks[t].(state := Running, onCpu := true)).(
      cpus := s.cpus[c := k.(current := t, phase := Finishing(k.current))])
  }

  /** clear_prev_task_on_cpu. */
  function DoFinish(s: State, c: Cpu): State
    requires c in s.cpus && s.cpus[c].phase.Finishing? && s.cpus[c].phase.prev in s.tasks
  {
    var p := s.cpus[c].phase.prev;
    WithPhase(WithTask(s, p, s.tasks[p].(onCpu := false)), c, Home)
  }

  function DoPush(s: State, c: Cpu): State
    requires HasCurrent(s, c) && s.cpus[c].phase.Blocking?
  {
    var t := s.cpus[c].current;
    var w := s.cpus[c].phase.wq;
    WithPhase(WithTask(s, t, s.tasks[t].(inWaitQueue := true)), c, Resched).(
    queues := s.queues[w := Queue(s, w) + [t]], locks := s.locks - {w})
  }

  /** cancel_events: leave the queue if still in it, expire the ticket of a timed wait. */
  function DoReturn(s: State, c: Cpu): State
    requires HasCurrent(s, c)
  {
    var t := s.cpus[c].current;
    var info := s.tasks[t];
    var queued := info.wait.HasQueue() && info.inWaitQueue;
    var ticket := if info.wait.Timed? || info.wait.TimedUntil? then 0 else info.ticket;
    WithTask(s, t, info.(wait := NoWait, ticket := ticket,
                         inWaitQueue := if queued then false else info.inWaitQueue)).(
    queues := if queued then s.queues[info.wait.wq := Without(Queue(s, info.wait.wq), t)] else s.queues)
  }

  function DoNotify(s: State, c: Cpu, wq: QueueId, i: nat): State
    requires c in s.cpus && i < |Queue(s, wq)| && Queue(s, wq)[i] in s.tasks
  {
    var q := Queue(s, wq);
    var t := q[i];
    WithPhase(WithTask(s, t, s.tasks[t].(inWaitQueue := false)), c, Waking(t, Exchange, Some(wq))).(
    queues := s.queues[wq := q[..i] + q[i+1..]], locks := s.locks[wq := c])
  }

  /** TaskWakeupEvent::callback: only an event with the task's current ticket unblocks it. */
  function DoFire(s: State, c: Cpu, e: Event): State
    requires c in s.cpus && e.task in s.tasks
  {
    var s1 := s.(events := s.events - {e});
    if s.tasks[e.task].ticket == e.ticket then WithPhase(s1, c, Waking(e.task, Exchange, None)) else s1
  }

  /** The exchange of put_task_with_state from Blocked; a loser does nothing. */
  function DoExchange(s: State, c: Cpu): State
    requires c in s.cpus && s.cpus[c].phase.Waking? && s.cpus[c].phase.task in s.tasks
  {
    var p := s.cpus[c].phase;
    var info := s.tasks[p.task];
    if info.state == Blocked then
      WithPhase(WithTask(s, p.task, info.(state := Ready, wakes := info.wakes + 1)), c, p.(stage := Spin))
    else
      Unlock(WithPhase(s, c, Home), p.lock)
  }

  function DoInsert(s: State, c: Cpu, target: Cpu): State
    requires c in s.cpus && s.cpus[c].phase.Waking? && s.cpus[c].phase.task in s.tasks && target in s.cpus
  {
    var p := s.cpus[c].phase;
    var info := s.tasks[p.task];
    var home := s.cpus[c := s.cpus[c].(phase := Home)];
    var k := home[target];
    Unlock(WithTask(s, p.task, info.(inserts := info.inserts + 1)), p.lock).(
    cpus := home[target := k.(ready := k.ready + multiset{p.task})])
  }

  function WithWait(s: State, c: Cpu, w: Wait): State
    requires HasCurrent(s, c)
  {
    WithTask(s, s.cpus[c].current, CurrentInfo(s, c).(wait := w))
  }

  function DoExit(s: State, c: Cpu): State
    requires HasCurrent(s, c)
  {
    WithTask(s, s.cpus[c].current, CurrentInfo(s, c).(state := Exited))
  }

  function Next(s: State, a: Action): State
    requires Enabled(s, a)
  {
    match a
    case Tick => s.(now := s.now + 1)
    case Spawn(c, t, target) => DoSpawn(s, t, target)
    case Yield(c) => DoYield(s, c)
    case PutPrev(c) => DoPutPrev(s, c)
    case Pick(c, t) => DoPick(s, c, t)
    case Switch(c) => DoSwitch(s, c)
    case Finish(c) => DoFinish(s, c)
    case PlainBegin(c, wq) => Lock(Block(s, c, Plain(wq), Blocking(wq)), wq, c)
    case UntilBegin(c, wq) => WithWait(s, c, Until(wq))
    case UntilBlock(c) =>
      var w := CurrentInfo(s, c).wait;
      Lock(Block(s, c, w, Blocking(w.wq)), w.wq, c)
    case TimedBegin(c, wq, deadline) =>
      Lock(Block(Alarm(s, c, deadline), c, Timed(wq, deadline), Blocking(wq)), wq, c)
    case TimedUntilBegin(c, wq, deadline) => WithWait(Alarm(s, c, deadline), c, TimedUntil(wq, deadline))
    case TimedUntilCheck(c) => WithPhase(s, c, Checked)
    case TimedUntilBlock(c) =>
      var w := CurrentInfo(s, c).wait;
      Lock(Block(s, c, w, Blocking(w.wq)), w.wq, c)
    case SleepBegin(c, deadline) => Block(Alarm(s, c, deadline), c, Sleep(deadline), Resched)
    case Push(c) => DoPush(s, c)
    case Return(c) => DoReturn(s, c)
    case Notify(c, wq, i) => DoNotify(s, c, wq, i)
    case Fire(c, e) => DoFire(s, c, e)
    case WakeExchange(c) => DoExchange(s, c)
    case WakeSpinDone(c) => WithPhase(s, c, s.cpus[c].phase.(stage := Insert))
    case WakeInsert(c, target) => DoInsert(s, c, target)
    case Exit(c) => DoExit(s, c)
    case ExitResched(c) => WithPhase(s, c, Resched)
  }

  /** The step leads from s to s'. */
  predicate Goes(s: State, a: Action, s': State) {
    Enabled(s, a) && Next(s, a) == s'
  }

  /** Which CPU runs each task at boot, and which ready queue holds each other task. */
  datatype Boot = Boot(running: map<Task, Cpu>, queued: map<Task, Cpu>)

  ghost predicate Init(s: State, boot: Boot) {
    && (forall c | c in s.cpus :: InitCpu(s, boot, c))
    && (forall c, t | c in s.cpus && t in s.cpus[c].ready ::
          t in boot.queued && boot.queued[t] == c && s.cpus[c].ready[t] == 1)
    && (forall t | t in s.tasks :: InitTask(s, boot, t))
    && boot.running.Keys + boot.queued.Keys <= s.tasks.Keys
    && s.queues == map[] && s.locks == map[] && s.events == {} && s.nextTicket == 1
  }

  ghost predicate InitCpu(s: State, boot: Boot, c: Cpu)
    requires c in s.cpus
  {
    && s.cpus[c].phase == Home
    && s.cpus[c].idle in s.tasks && s.tasks[s.cpus[c].idle].idleOf == Some(c)
    && s.cpus[c].current in s.tasks
    && (IsIdle(s, s.cpus[c].current) ==> s.cpus[c].current == s.cpus[c].idle)
    && s.cpus[c].current in boot.running && boot.running[s.cpus[c].current] == c
  }

  ghost predicate InitTask(s: State, boot: Boot, t: Task)
    requires t in s.tasks
  {
    var i := s.tasks[t];
    && i.wait == NoWait && !i.inWaitQueue && i.ticket == 0
    && i.blocks == i.wakes == i.inserts == 0
    && (i.idleOf.Some? ==> i.idleOf.value in s.cpus && s.cpus[i.idleOf.value].idle == t)
    && if t in boot.running then
         && boot.running[t] in s.cpus && s.cpus[boot.running[t]].current == t
         && t !in boot.queued && i.state == Running && i.onCpu
       else
         && i.state == Ready && !i.onCpu
         && (t !in boot.queued ==> i.idleOf.Some?)
         && (t in boot.queued ==>
               boot.queued[t] in s.cpus && t in s.cpus[boot.queued[t]].ready && i.idleOf == None)
  }

  /** The states passed through when the actions of `run` are taken in turn. */
  ghost predicate IsRun(trace: seq<State>, run: seq<Action>, boot: Boot) {
    && |trace| == |run| + 1
    && Init(trace[0], boot)
    && forall i :: 0 <= i < |run| ==> Enabled(trace[i], run[i]) && trace[i + 1] == Next(trace[i], run[i])
  }
}
