/**
 Waits on one CPU with a monotone clock: a task blocked with a deadline is cared
 for, an event of a wait already left never unblocks the task, and a wait queue
 holds exactly the tasks flagged as waiting in it, each once. Module TimeoutCare
 says what holds on any number of CPUs, module TimeoutRace what does not.
 */
module TimedWaits {
  import opened Options
  import opened TaskModel
  import opened TaskPlacement
  import opened TimeoutCare

  /** The event the task's current deadline wait created is still pending. */
  predicate Armed(s: State, c0: Cpu, t: Task)
    requires t in s.tasks && s.tasks[t].wait.HasDeadline()
  {
    Event(s.tasks[t].wait.deadline, s.tasks[t].ticket, t, c0) in s.events
  }

  ghost predicate TaskTimed(s: State, c0: Cpu, t: Task)
    requires t in s.tasks && c0 in s.cpus
  {
    var i := s.tasks[t];
    && i.ticket < s.nextTicket
    && (i.inWaitQueue ==> i.wait.HasQueue())
    && (i.state == Blocked ==> i.wait != NoWait)
    && (i.wait.Until? && i.state != Blocked ==> !i.inWaitQueue)
    && (i.wait.TimedUntil? && i.state != Blocked && i.inWaitQueue ==> i.wait.deadline <= s.now)
    && (i.wait.HasDeadline() && i.state == Blocked ==>
          Armed(s, c0, t) || s.cpus[c0].phase == Waking(t, Exchange, None))
    && (i.wait.TimedUntil? && s.now < i.wait.deadline ==> Armed(s, c0, t))
  }

  /** The queue holds `t` once if `t` is flagged and waits there, and not at all otherwise. */
  ghost predicate TaskQueued(s: State, t: Task, w: QueueId)
    requires t in s.tasks
  {
    var i := s.tasks[t];
    multiset(Queue(s, w))[t] == if i.inWaitQueue && i.wait.HasQueue() && i.wait.wq == w then 1 else 0
  }

  ghost predicate EventOk(s: State, c0: Cpu, e: Event) {
    && e.cpu == c0 && e.task in s.tasks && 0 < e.ticket < s.nextTicket
    && (e.ticket == s.tasks[e.task].ticket ==>
          var i := s.tasks[e.task];
          && i.wait.HasDeadline() && i.wait.deadline == e.deadline
          && (i.wait.Sleep? ==> i.state == Blocked))
  }

  ghost predicate PhaseTimed(s: State, c0: Cpu)
    requires HasCurrent(s, c0)
  {
    var i := CurrentInfo(s, c0);
    match s.cpus[c0].phase
    case Checked => i.state == Running && i.wait.TimedUntil? && !i.inWaitQueue && Armed(s, c0, s.cpus[c0].current)
    case Blocking(w) => i.state == Blocked && i.wait.HasQueue() && i.wait.wq == w && !i.inWaitQueue
    case Waking(t, stage, lock) =>
      && t in s.tasks
      && (lock == None ==>
            && s.tasks[t].wait.HasDeadline() && s.tasks[t].wait.deadline <= s.now
            && (forall e | e in s.events && e.task == t :: e.ticket != s.tasks[t].ticket))
      && (lock.Some? && stage == Exchange ==> s.tasks[t].wait.HasQueue() && !s.tasks[t].inWaitQueue)
    case _ => true
  }

  ghost predicate AllTimed(s: State, c0: Cpu)
    requires c0 in s.cpus
  {
    forall t {:trigger TaskTimed(s, c0, t)} | t in s.tasks :: TaskTimed(s, c0, t)
  }

  ghost predicate AllQueued(s: State) {
    forall t, w {:trigger TaskQueued(s, t, w)} | t in s.tasks :: TaskQueued(s, t, w)
  }

  ghost predicate AllEvents(s: State, c0: Cpu) {
    && 0 < s.nextTicket
    && (forall e | e in s.events :: EventOk(s, c0, e))
    && (forall d, e | d in s.events && e in s.events && d.ticket == e.ticket :: d == e)
  }

  ghost predicate TimedInv(s: State, c0: Cpu) {
    && s.cpus.Keys == {c0} && HasCurrent(s, c0)
    && PhaseTimed(s, c0) && AllTimed(s, c0) && AllQueued(s) && AllEvents(s, c0)
  }

  /** Nothing a wait can see changes, and no wakeup is in its exchange. */
  ghost predicate Quiet(s: State, s': State, c0: Cpu) {
    && s.cpus.Keys == s'.cpus.Keys == {c0} && HasCurrent(s', c0)
    && s'.tasks.Keys == s.tasks.Keys
    && (forall t | t in s.tasks ::
          var i, j := s.tasks[t], s'.tasks[t];
          && j.wait == i.wait && j.ticket == i.ticket && j.inWaitQueue == i.inWaitQueue
          && (j.state == Blocked <==> i.state == Blocked))
    && s'.events == s.events && s'.queues == s.queues && s'.now == s.now && s'.nextTicket == s.nextTicket
    && !(s.cpus[c0].phase.Waking? && s.cpus[c0].phase.stage == Exchange)
    && var p, q := s.cpus[c0].phase, s'.cpus[c0].phase;
       (q.Waking? ==> q.stage != Exchange && p.Waking? && q.task == p.task && q.lock == p.lock)
       && !q.Checked? && !q.Blocking?
  }

  lemma QuietTimed(s: State, s': State, c0: Cpu)
    requires TimedInv(s, c0) && Quiet(s, s', c0)
    ensures TimedInv(s', c0)
  {
    forall t | t in s'.tasks ensures TaskTimed(s', c0, t) { assert TaskTimed(s, c0, t); }
    forall t, w | t in s'.tasks ensures TaskQueued(s', t, w) { assert TaskQueued(s, t, w); }
  }

  lemma TickTimed(s: State, c0: Cpu)
    requires TimedInv(s, c0)
    ensures TimedInv(s.(now := s.now + 1), c0)
  {
    var s' := s.(now := s.now + 1);
    forall t | t in s'.tasks ensures TaskTimed(s', c0, t) { assert TaskTimed(s, c0, t); }
    forall t, w | t in s'.tasks ensures TaskQueued(s', t, w) { assert TaskQueued(s, t, w); }
  }

  lemma SpawnTimed(s: State, c0: Cpu, t0: Task)
    requires TimedInv(s, c0) && WaitersOk(s) && t0 !in s.tasks && s.cpus[c0].phase == Home
    ensures TimedInv(DoSpawn(s, t0, c0), c0)
  {
    var s' := DoSpawn(s, t0, c0);
    forall t | t in s'.tasks ensures TaskTimed(s', c0, t) { if t != t0 { assert TaskTimed(s, c0, t); } }
    forall t, w | t in s'.tasks ensures TaskQueued(s', t, w) { if t != t0 { assert TaskQueued(s, t, w); } }
  }

  /** The current task enters a wait without blocking yet. */
  lemma UntilBeginTimed(s: State, c0: Cpu, wq: QueueId)
    requires TimedInv(s, c0) && FreeHome(s, c0)
    ensures TimedInv(WithWait(s, c0, Until(wq)), c0)
  {
    var s' := WithWait(s, c0, Until(wq));
    assert TaskTimed(s, c0, s.cpus[c0].current);
    forall t | t in s'.tasks ensures TaskTimed(s', c0, t) { assert TaskTimed(s, c0, t); }
    forall t, w | t in s'.tasks ensures TaskQueued(s', t, w) { assert TaskQueued(s, t, w); }
  }

  /** A fresh alarm, and the wait `w` it belongs to, on a task that is in no wait. */
  function Arm(s: State, c0: Cpu, w: Wait): State
    requires HasCurrent(s, c0) && w.HasDeadline()
  {
    WithWait(Alarm(s, c0, w.deadline), c0, w)
  }

  lemma ArmTimed(s: State, c0: Cpu, w: Wait)
    requires TimedInv(s, c0) && FreeHome(s, c0) && w.HasDeadline() && !w.Sleep?
    ensures TimedInv(Arm(s, c0, w), c0)
  {
    var s' := Arm(s, c0, w);
    var t0 := s.cpus[c0].current;
    assert TaskTimed(s, c0, t0);
    forall t | t in s'.tasks ensures TaskTimed(s', c0, t) { assert TaskTimed(s, c0, t); }
    forall t, q | t in s'.tasks ensures TaskQueued(s', t, q) { assert TaskQueued(s, t, q); }
    forall e | e in s'.events ensures EventOk(s', c0, e) {
      if e in s.events { assert EventOk(s, c0, e) && e.ticket != s.nextTicket; }
    }
  }

  lemma SleepTimed(s: State, c0: Cpu, deadline: nat)
    requires TimedInv(s, c0) && FreeHome(s, c0)
    ensures TimedInv(Block(Alarm(s, c0, deadline), c0, Sleep(deadline), Resched), c0)
  {
    var s' := Block(Alarm(s, c0, deadline), c0, Sleep(deadline), Resched);
    assert TaskTimed(s, c0, s.cpus[c0].current);
    forall t | t in s'.tasks ensures TaskTimed(s', c0, t) { assert TaskTimed(s, c0, t); }
    forall t, q | t in s'.tasks ensures TaskQueued(s', t, q) { assert TaskQueued(s, t, q); }
    forall e | e in s'.events ensures EventOk(s', c0, e) {
      if e in s.events { assert EventOk(s, c0, e) && e.ticket != s.nextTicket; }
    }
  }

  /** Blocking in a queue: the task must not be in it already, and a deadline must be armed. */
  lemma BlockTimed(s: State, c0: Cpu, w: Wait)
    requires TimedInv(s, c0) && HasCurrent(s, c0) && w.HasQueue()
    requires s.cpus[c0].phase == Home || s.cpus[c0].phase == Checked
    requires var i := CurrentInfo(s, c0);
             && i.state == Running && !i.inWaitQueue && (i.wait == w || (i.wait == NoWait && !w.HasDeadline()))
    requires w.HasDeadline() ==> Armed(s, c0, s.cpus[c0].current)
    ensures TimedInv(Lock(Block(s, c0, w, Blocking(w.wq)), w.wq, c0), c0)
  {
    var s' := Lock(Block(s, c0, w, Blocking(w.wq)), w.wq, c0);
    assert TaskTimed(s, c0, s.cpus[c0].current);
    forall t | t in s'.tasks ensures TaskTimed(s', c0, t) { assert TaskTimed(s, c0, t); }
    forall t, q | t in s'.tasks ensures TaskQueued(s', t, q) { assert TaskQueued(s, t, q); }
  }

  lemma CheckTimed(s: State, c0: Cpu)
    requires TimedInv(s, c0) && Enabled(s, TimedUntilCheck(c0))
    ensures TimedInv(WithPhase(s, c0, Checked), c0)
  {
    var s' := WithPhase(s, c0, Checked);
    assert TaskTimed(s, c0, s.cpus[c0].current);
    forall t | t in s'.tasks ensures TaskTimed(s', c0, t) { assert TaskTimed(s, c0, t); }
    forall t, q | t in s'.tasks ensures TaskQueued(s', t, q) { assert TaskQueued(s, t, q); }
  }

  lemma PushTimed(s: State, c0: Cpu)
    requires TimedInv(s, c0) && s.cpus[c0].phase.Blocking?
    ensures TimedInv(DoPush(s, c0), c0)
  {
    var s' := DoPush(s, c0);
    forall t | t in s'.tasks ensures TaskTimed(s', c0, t) { assert TaskTimed(s, c0, t); }
    forall t, q | t in s'.tasks ensures TaskQueued(s', t, q) { assert TaskQueued(s, t, q); }
  }

  lemma ReturnTimed(s: State, c0: Cpu)
    requires TimedInv(s, c0) && Enabled(s, Return(c0))
    ensures TimedInv(DoReturn(s, c0), c0)
  {
    var s' := DoReturn(s, c0);
    assert TaskTimed(s, c0, s.cpus[c0].current);
    forall t | t in s'.tasks ensures TaskTimed(s', c0, t) { assert TaskTimed(s, c0, t); }
    forall t, q | t in s'.tasks ensures TaskQueued(s', t, q) { assert TaskQueued(s, t, q); }
  }

  lemma NotifyTimed(s: State, c0: Cpu, wq: QueueId, i: nat)
    requires TimedInv(s, c0) && Enabled(s, Notify(c0, wq, i))
    ensures TimedInv(DoNotify(s, c0, wq, i), c0)
  {
    var s' := DoNotify(s, c0, wq, i);
    var q := Queue(s, wq);
    assert q == q[..i] + [q[i]] + q[i+1..];
    assert TaskQueued(s, q[i], wq);
    forall t | t in s'.tasks ensures TaskTimed(s', c0, t) { assert TaskTimed(s, c0, t); }
    forall t, w | t in s'.tasks ensures TaskQueued(s', t, w) { assert TaskQueued(s, t, w); }
  }

  lemma FireTimed(s: State, c0: Cpu, e: Event)
    requires TimedInv(s, c0) && Enabled(s, Fire(c0, e))
    ensures TimedInv(DoFire(s, c0, e), c0)
  {
    var s' := DoFire(s, c0, e);
    assert EventOk(s, c0, e);
    forall t | t in s'.tasks ensures TaskTimed(s', c0, t) { assert TaskTimed(s, c0, t); }
    forall t, w | t in s'.tasks ensures TaskQueued(s', t, w) { assert TaskQueued(s, t, w); }
  }

  lemma ExchangeTimed(s: State, c0: Cpu)
    requires TimedInv(s, c0) && Enabled(s, WakeExchange(c0))
    ensures TimedInv(DoExchange(s, c0), c0)
  {
    if s.tasks[s.cpus[c0].phase.task].state == Blocked { WonTimed(s, c0); } else { LostTimed(s, c0); }
  }

  lemma WonTimed(s: State, c0: Cpu)
    requires TimedInv(s, c0) && Enabled(s, WakeExchange(c0)) && s.tasks[s.cpus[c0].phase.task].state == Blocked
    ensures TimedInv(DoExchange(s, c0), c0)
  {
    var s' := DoExchange(s, c0);
    assert TaskTimed(s, c0, s.cpus[c0].phase.task);
    forall t | t in s'.tasks ensures TaskTimed(s', c0, t) { assert TaskTimed(s, c0, t); }
    forall t, w | t in s'.tasks ensures TaskQueued(s', t, w) { assert TaskQueued(s, t, w); }
  }

  lemma LostTimed(s: State, c0: Cpu)
    requires TimedInv(s, c0) && Enabled(s, WakeExchange(c0)) && s.tasks[s.cpus[c0].phase.task].state != Blocked
    ensures TimedInv(DoExchange(s, c0), c0)
  {
    var s' := DoExchange(s, c0);
    forall t | t in s'.tasks ensures TaskTimed(s', c0, t) { assert TaskTimed(s, c0, t); }
    forall t, w | t in s'.tasks ensures TaskQueued(s', t, w) { assert TaskQueued(s, t, w); }
  }

  predicate GivesUp(a: Action) { a.Yield? || a.PutPrev? || a.Exit? || a.ExitResched? }

  lemma GivingUpIsQuiet(s: State, c0: Cpu, a: Action)
    requires s.cpus.Keys == {c0} && HasCurrent(s, c0) && Enabled(s, a) && GivesUp(a)
    ensures Quiet(s, Next(s, a), c0)
  {
  }

  lemma PickingIsQuiet(s: State, c0: Cpu, a: Action)
    requires s.cpus.Keys == {c0} && HasCurrent(s, c0) && Enabled(s, a) && (a.Pick? || a.Finish?)
    ensures Quiet(s, Next(s, a), c0)
  {
  }

  lemma SwitchIsQuiet(s: State, c0: Cpu)
    requires s.cpus.Keys == {c0} && HasCurrent(s, c0) && Enabled(s, Switch(c0))
    requires s.tasks[s.cpus[c0].phase.next].state == Ready
    ensures Quiet(s, DoSwitch(s, c0), c0)
  {
  }

  lemma SpinDoneIsQuiet(s: State, c0: Cpu)
    requires s.cpus.Keys == {c0} && HasCurrent(s, c0) && Enabled(s, WakeSpinDone(c0))
    ensures Quiet(s, Next(s, WakeSpinDone(c0)), c0)
  {
  }

  lemma InsertIsQuiet(s: State, c0: Cpu)
    requires s.cpus.Keys == {c0} && HasCurrent(s, c0) && Enabled(s, WakeInsert(c0, c0))
    ensures Quiet(s, DoInsert(s, c0, c0), c0)
  {
  }

  lemma PickedStaysReady(s: State, own: Owners, c: Cpu)
    requires Placed(s, own) && Enabled(s, Switch(c))
    ensures s.tasks[s.cpus[c].phase.next].state == Ready
  {
    Facts(s, own, c, s.cpus[c].phase.next);
  }

  lemma ScheduleTimed(s: State, own: Owners, c0: Cpu, a: Action)
    requires Placed(s, own) && TimedInv(s, c0) && Enabled(s, a) && (GivesUp(a) || a.Pick? || a.Finish? || a.Switch?)
    ensures TimedInv(Next(s, a), c0)
  {
    if GivesUp(a) {
      GivingUpIsQuiet(s, c0, a);
    } else if a.Switch? {
      PickedStaysReady(s, own, c0);
      SwitchIsQuiet(s, c0);
    } else {
      PickingIsQuiet(s, c0, a);
    }
    QuietTimed(s, Next(s, a), c0);
  }

  lemma TimedBeginTimed(s: State, c0: Cpu, wq: QueueId, deadline: nat)
    requires TimedInv(s, c0) && Enabled(s, TimedBegin(c0, wq, deadline))
    ensures TimedInv(Next(s, TimedBegin(c0, wq, deadline)), c0)
  {
    var w := Timed(wq, deadline);
    assert TaskTimed(s, c0, s.cpus[c0].current);
    ArmTimed(s, c0, w);
    BlockTimed(Arm(s, c0, w), c0, w);
    assert Block(Arm(s, c0, w), c0, w, Blocking(wq)).tasks == Block(Alarm(s, c0, deadline), c0, w, Blocking(wq)).tasks;
  }

  lemma BlockStepTimed(s: State, own: Owners, c0: Cpu, a: Action)
    requires Placed(s, own) && TimedInv(s, c0) && Enabled(s, a)
    requires a.PlainBegin? || a.UntilBlock? || a.TimedUntilBlock?
    ensures TimedInv(Next(s, a), c0)
  {
    assert TaskTimed(s, c0, s.cpus[c0].current);
    BlockTimed(s, c0, if a.PlainBegin? then Plain(a.wq) else CurrentInfo(s, c0).wait);
  }

  lemma WaitTimed(s: State, own: Owners, c0: Cpu, a: Action)
    requires Placed(s, own) && TimedInv(s, c0) && Enabled(s, a) && Waits(a)
    ensures TimedInv(Next(s, a), c0)
  {
    if a.PlainBegin? || a.UntilBlock? || a.TimedUntilBlock? {
      BlockStepTimed(s, own, c0, a);
    } else if a.UntilBegin? {
      UntilBeginTimed(s, c0, a.wq);
    } else if a.TimedBegin? {
      TimedBeginTimed(s, c0, a.wq, a.deadline);
    } else if a.TimedUntilBegin? {
      ArmTimed(s, c0, TimedUntil(a.wq, a.deadline));
    } else if a.TimedUntilCheck? {
      CheckTimed(s, c0);
    } else if a.SleepBegin? {
      SleepTimed(s, c0, a.deadline);
    } else if a.Push? {
      PushTimed(s, c0);
    } else {
      ReturnTimed(s, c0);
    }
  }

  lemma WakeTimed(s: State, c0: Cpu, a: Action)
    requires TimedInv(s, c0) && Enabled(s, a) && Wakes(a)
    ensures TimedInv(Next(s, a), c0)
  {
    if a.Notify? {
      NotifyTimed(s, c0, a.wq, a.i);
    } else if a.Fire? {
      FireTimed(s, c0, a.e);
    } else if a.WakeExchange? {
      ExchangeTimed(s, c0);
    } else if a.WakeSpinDone? {
      SpinDoneIsQuiet(s, c0);
      QuietTimed(s, Next(s, a), c0);
    } else {
      InsertIsQuiet(s, c0);
      QuietTimed(s, Next(s, a), c0);
    }
  }

  /** On one CPU every step keeps the timed-wait invariant. */
  lemma StepTimed(s: State, own: Owners, c0: Cpu, a: Action)
    requires Placed(s, own) && TimedInv(s, c0) && Enabled(s, a)
    ensures TimedInv(Next(s, a), c0)
  {
    if Waits(a) {
      WaitTimed(s, own, c0, a);
    } else if Wakes(a) {
      WakeTimed(s, c0, a);
    } else if a.Tick? {
      TickTimed(s, c0);
    } else if a.Spawn? {
      SpawnTimed(s, c0, a.t);
    } else {
      ScheduleTimed(s, own, c0, a);
    }
  }

  lemma InitTimed(s: State, boot: Boot, c0: Cpu)
    requires Init(s, boot) && s.cpus.Keys == {c0}
    ensures TimedInv(s, c0)
  {
    forall t | t in s.tasks ensures TaskTimed(s, c0, t) { assert InitTask(s, boot, t); }
    forall t, w | t in s.tasks ensures TaskQueued(s, t, w) { assert InitTask(s, boot, t); }
  }

  lemma RunTimed(trace: seq<State>, run: seq<Action>, boot: Boot, c0: Cpu, n: nat) returns (own: Owners)
    requires IsRun(trace, run, boot) && trace[0].cpus.Keys == {c0} && n < |trace|
    ensures Placed(trace[n], own) && TimedInv(trace[n], c0)
  {
    InitPlaced(trace[0], boot);
    InitTimed(trace[0], boot, c0);
    own := InitialOwners(trace[0], boot);
    for i := 0 to n
      invariant Placed(trace[i], own) && TimedInv(trace[i], c0)
    {
      StepTimed(trace[i], own, c0, run[i]);
      own := StepPlaced(trace[i], own, run[i]);
    }
  }

  lemma CheckedIsCared(s: State, c0: Cpu, a: Action)
    requires TimedInv(s, c0) && Enabled(s, a)
    ensures !BlocksUncared(s, a)
  {
    if a.TimedUntilBlock? {
      assert EventOn(s, s.cpus[c0].current, c0);
    }
  }

  /** On one CPU no wait_timeout_until blocks a task nobody cares for. */
  lemma OneCpuBlocksCared(trace: seq<State>, run: seq<Action>, boot: Boot, c0: Cpu, n: nat)
    requires IsRun(trace, run, boot) && trace[0].cpus.Keys == {c0} && n < |trace|
    ensures NoneUncared(trace, run, n)
  {
    forall i | 0 <= i < n ensures !BlocksUncared(trace[i], run[i]) {
      var own := RunTimed(trace, run, boot, c0, i);
      CheckedIsCared(trace[i], c0, run[i]);
    }
  }

  /** So in every run on one CPU a task blocked with a deadline has a pending event that carries its
      current ticket, or that event's callback is about to unblock it. */
  lemma TimeoutNeverLost(trace: seq<State>, run: seq<Action>, boot: Boot, c0: Cpu, n: nat)
    requires IsRun(trace, run, boot) && trace[0].cpus.Keys == {c0} && n < |trace|
    ensures AllCared(trace[n])
  {
    OneCpuBlocksCared(trace, run, boot, c0, n);
    TimeoutsExactly(trace, run, boot, n);
  }

  // ---- An event of a wait already left unblocks nobody ----

  /** Step b is where task t enters a wait with a deadline, and event e is made for it. */
  ghost predicate Began(trace: seq<State>, run: seq<Action>, b: nat, e: Event)
    requires |run| <= |trace|
  {
    b < |run| && Makes(trace[b], run[b], e)
  }

  /** Task t leaves its wait in this step. */
  predicate Leaves(s: State, a: Action, t: Task) {
    a.Return? && HasCurrent(s, a.c) && s.cpus[a.c].current == t
  }

  /** The task has not left the wait for which the event was made in step b. */
  ghost predicate SameWaitSince(trace: seq<State>, run: seq<Action>, b: nat, n: nat, e: Event)
    requires |run| <= |trace| && n <= |run|
  {
    && Began(trace, run, b, e) && b < n
    && forall i {:trigger Leaves(trace[i], run[i], e.task)} | b < i < n :: !Leaves(trace[i], run[i], e.task)
  }

  ghost predicate OfWait(trace: seq<State>, run: seq<Action>, n: nat, e: Event)
    requires |run| <= |trace| && n <= |run|
  {
    exists b :: SameWaitSince(trace, run, b, n, e)
  }

  /** Every event with its task's current ticket was made for the wait the task is in. */
  ghost predicate EventsOfWaits(trace: seq<State>, run: seq<Action>, n: nat)
    requires |run| < |trace| && n <= |run|
  {
    forall e | Matches(trace[n], e) :: OfWait(trace, run, n, e)
  }

  /** The event the step makes for the current task. */
  predicate Makes(s: State, a: Action, e: Event) {
    && (a.TimedBegin? || a.TimedUntilBegin? || a.SleepBegin?)
    && HasCurrent(s, a.c) && s.cpus[a.c].current == e.task && e.ticket == s.nextTicket && e.deadline == a.deadline
  }

  predicate Matches(s: State, e: Event) { e in s.events && e.task in s.tasks && e.ticket == s.tasks[e.task].ticket }

  lemma NoNewEvents(s: State, a: Action)
    requires Enabled(s, a) && !Waits(a)
    ensures Next(s, a).events <= s.events
  {
  }

  /** A matching event after a step was there before it, with the same ticket, or the step made it. */
  lemma OldOrNew(s: State, c0: Cpu, a: Action, e: Event)
    requires TimedInv(s, c0) && Enabled(s, a) && Matches(Next(s, a), e)
    ensures Makes(s, a, e) || (Matches(s, e) && !Leaves(s, a, e.task))
  {
    assert e in s.events ==> EventOk(s, c0, e);
    if !Waits(a) {
      NoNewEvents(s, a);
      OthersKeepWaits(s, a);
    }
  }

  lemma SinceGoesOn(trace: seq<State>, run: seq<Action>, b: nat, n: nat, e: Event)
    requires |run| < |trace| && n < |run| && SameWaitSince(trace, run, b, n, e) && !Leaves(trace[n], run[n], e.task)
    ensures SameWaitSince(trace, run, b, n + 1, e)
  {
  }

  lemma RunEventsOfWaits(trace: seq<State>, run: seq<Action>, boot: Boot, c0: Cpu, n: nat)
    requires IsRun(trace, run, boot) && trace[0].cpus.Keys == {c0} && n <= |run|
    ensures EventsOfWaits(trace, run, n)
  {
    for i := 0 to n
      invariant EventsOfWaits(trace, run, i)
    {
      var own := RunTimed(trace, run, boot, c0, i);
      var j := i + 1;
      forall e | Matches(trace[j], e) ensures OfWait(trace, run, j, e) {
        OldOrNew(trace[i], c0, run[i], e);
        if Began(trace, run, i, e) {
          assert SameWaitSince(trace, run, i, i + 1, e);
        } else {
          var b :| SameWaitSince(trace, run, b, i, e);
          SinceGoesOn(trace, run, b, i, e);
        }
      }
    }
  }

  /** A callback under way after a step began with it, or was under way and the step left every task in
      its wait. */
  lemma CallbackComesFrom(s: State, c0: Cpu, a: Action, t: Task)
    requires s.cpus.Keys == {c0} && Enabled(s, a) && CallbackOn(Next(s, a), t, c0)
    ensures (a.Fire? && a.c == c0 && a.e.task == t && Matches(s, a.e)) || (CallbackOn(s, t, c0) && a.Tick?)
  {
  }

  lemma FiredFrom(trace: seq<State>, run: seq<Action>, boot: Boot, c0: Cpu, f: nat, e: Event) returns (b: nat)
    requires IsRun(trace, run, boot) && trace[0].cpus.Keys == {c0} && f < |run|
    requires run[f] == Fire(c0, e) && Matches(trace[f], e)
    ensures b < f && SameWaitSince(trace, run, b, f + 1, e)
  {
    RunEventsOfWaits(trace, run, boot, c0, f);
    assert OfWait(trace, run, f, e);
    b :| SameWaitSince(trace, run, b, f, e);
    SinceGoesOn(trace, run, b, f, e);
  }

  lemma SameCpus(trace: seq<State>, run: seq<Action>, boot: Boot, c0: Cpu, n: nat)
    requires IsRun(trace, run, boot) && trace[0].cpus.Keys == {c0} && n < |trace|
    ensures trace[n].cpus.Keys == {c0} && (n == 0 ==> trace[n].cpus[c0].phase == Home)
  {
    var own := RunTimed(trace, run, boot, c0, n);
  }

  /** On one CPU an event unblocks a task only in the wait it was made for: a callback about to exchange
      the task's state goes back to the firing of an event, in step f, and that event to the beginning,
      in step b, of a wait the task has not left since. */
  lemma {:induction false} StaleEventIgnored(trace: seq<State>, run: seq<Action>, boot: Boot, c0: Cpu, n: nat, t: Task)
    returns (b: nat, f: nat, e: Event)
    requires IsRun(trace, run, boot) && trace[0].cpus.Keys == {c0} && n <= |run| && CallbackOn(trace[n], t, c0)
    ensures e.task == t && b < f < n && run[f] == Fire(c0, e) && e.deadline <= trace[f].now
    ensures SameWaitSince(trace, run, b, n, e)
  {
    SameCpus(trace, run, boot, c0, n);
    var m := n - 1;
    SameCpus(trace, run, boot, c0, m);
    CallbackComesFrom(trace[m], c0, run[m], t);
    if run[m].Fire? {
      f, e := m, run[m].e;
      b := FiredFrom(trace, run, boot, c0, f, e);
    } else {
      b, f, e := StaleEventIgnored(trace, run, boot, c0, m, t);
      SinceGoesOn(trace, run, b, m, e);
    }
  }

  /** A wait queue holds exactly the tasks flagged as waiting in it, each once. */
  lemma WaitQueueExact(trace: seq<State>, run: seq<Action>, boot: Boot, c0: Cpu, n: nat, t: Task, w: QueueId)
    requires IsRun(trace, run, boot) && trace[0].cpus.Keys == {c0} && n < |trace| && t in trace[n].tasks
    ensures var i := trace[n].tasks[t];
            multiset(Queue(trace[n], w))[t]
              == if i.inWaitQueue && i.wait.HasQueue() && i.wait.wq == w then 1 else 0
  {
    var own := RunTimed(trace, run, boot, c0, n);
    assert TaskQueued(trace[n], t, w);
  }

  /** After a timer interrupt has fired every due event, no blocked task is past its deadline. */
  lemma NoOverdueWaiter(trace: seq<State>, run: seq<Action>, boot: Boot, c0: Cpu, n: nat, t: Task)
    requires IsRun(trace, run, boot) && trace[0].cpus.Keys == {c0} && n < |trace|
    requires AtHome(trace[n], c0) && forall e | e in trace[n].events :: trace[n].now < e.deadline
    requires t in trace[n].tasks && trace[n].tasks[t].wait.HasDeadline()
    requires trace[n].tasks[t].wait.deadline <= trace[n].now
    ensures trace[n].tasks[t].state != Blocked
  {
    var own := RunTimed(trace, run, boot, c0, n);
    TimeoutNeverLost(trace, run, boot, c0, n);
    CaredNotOverdue(trace[n], t);
  }
}
