/**
 The calls of the scheduler and the wait queues, each from its first step to its
 last when nothing comes between them: that they can be made, and the whole state
 they leave.
 */
module TaskCalls {
  import opened Options
  import opened Traces
  import opened Queues
  import opened TaskModel

  /** The actions can be taken one after another, and lead to s'. */
  ghost predicate Does(s: State, actions: seq<Action>, s': State) { Leads(s, actions, s', Goes) }

  // ---- Waiting ----

  predicate MayWait(s: State, c: Cpu) { FreeHome(s, c) && !IsIdle(s, s.cpus[c].current) }

  /** The current task is inside the wait, and has done nothing about it yet. */
  function Inside(s: State, c: Cpu, w: Wait, p: Phase): State
    requires HasCurrent(s, c)
  {
    var t := s.cpus[c].current;
    s.(tasks := s.tasks[t := s.tasks[t].(wait := w)], cpus := s.cpus[c := s.cpus[c].(phase := p)])
  }

  /** It has a new ticket, with an event for it on its CPU. */
  function Ticketed(s: State, c: Cpu, deadline: nat): State
    requires HasCurrent(s, c)
  {
    var t := s.cpus[c].current;
    s.(tasks := s.tasks[t := s.tasks[t].(ticket := s.nextTicket)],
       events := s.events + {Event(deadline, s.nextTicket, t, c)}, nextTicket := s.nextTicket + 1)
  }

  /** It is Blocked, under the queue's lock. */
  function Locked(s: State, c: Cpu, w: Wait, wq: QueueId): State
    requires HasCurrent(s, c)
  {
    var t := s.cpus[c].current;
    s.(tasks := s.tasks[t := s.tasks[t].(state := Blocked, wait := w, blocks := s.tasks[t].blocks + 1)],
       cpus := s.cpus[c := s.cpus[c].(phase := Blocking(wq))], locks := s.locks[wq := c])
  }

  /** It is Blocked and last in the queue, which is unlocked, and its CPU is about to pick another task. */
  function InQueue(s: State, c: Cpu, w: Wait, wq: QueueId): State
    requires HasCurrent(s, c)
  {
    var t := s.cpus[c].current;
    s.(tasks := s.tasks[t := s.tasks[t].(
         state := Blocked, wait := w, inWaitQueue := true, blocks := s.tasks[t].blocks + 1)],
       cpus := s.cpus[c := s.cpus[c].(phase := Resched)], queues := s.queues[wq := Queue(s, wq) + [t]])
  }

  lemma PushGoes(s: State, c: Cpu, w: Wait, wq: QueueId)
    requires HasCurrent(s, c) && wq !in s.locks
    ensures Goes(Locked(s, c, w, wq), Push(c), InQueue(s, c, w, wq))
  {
    var s1, s2 := DoPush(Locked(s, c, w, wq), c), InQueue(s, c, w, wq);
    assert s1.locks == s2.locks && s1.tasks == s2.tasks && s1.cpus == s2.cpus;
  }

  lemma WaitCall(s: State, c: Cpu, wq: QueueId)
    requires MayWait(s, c) && wq !in s.locks
    ensures Does(s, [PlainBegin(c, wq), Push(c)], InQueue(s, c, Plain(wq), wq))
  {
    var s1 := Locked(s, c, Plain(wq), wq);
    assert Goes(s, PlainBegin(c, wq), s1);
    PushGoes(s, c, Plain(wq), wq);
    LeadsTwo(s, PlainBegin(c, wq), s1, Push(c), InQueue(s, c, Plain(wq), wq), Goes);
  }

  lemma UntilGoes(s: State, c: Cpu, wq: QueueId)
    requires MayWait(s, c) && wq !in s.locks
    ensures Goes(s, UntilBegin(c, wq), Inside(s, c, Until(wq), Home))
    ensures Goes(Inside(s, c, Until(wq), Home), UntilBlock(c), Locked(s, c, Until(wq), wq))
  {
    var s1, s2 := Next(Inside(s, c, Until(wq), Home), UntilBlock(c)), Locked(s, c, Until(wq), wq);
    assert Inside(s, c, Until(wq), Home).cpus == s.cpus;
    assert s1.tasks == s2.tasks && s1.cpus == s2.cpus;
  }

  /** wait_until whose condition is false. */
  lemma UntilCall(s: State, c: Cpu, wq: QueueId)
    requires MayWait(s, c) && wq !in s.locks
    ensures Does(s, [UntilBegin(c, wq), UntilBlock(c), Push(c)], InQueue(s, c, Until(wq), wq))
  {
    UntilGoes(s, c, wq);
    PushGoes(s, c, Until(wq), wq);
    LeadsThree(s, UntilBegin(c, wq), Inside(s, c, Until(wq), Home), UntilBlock(c), Locked(s, c, Until(wq), wq), Push(c),
               InQueue(s, c, Until(wq), wq), Goes);
  }

  lemma TimedGoes(s: State, c: Cpu, wq: QueueId, deadline: nat)
    requires MayWait(s, c) && wq !in s.locks
    ensures Goes(s, TimedBegin(c, wq, deadline), Locked(Ticketed(s, c, deadline), c, Timed(wq, deadline), wq))
  {
  }

  lemma TimedCall(s: State, c: Cpu, wq: QueueId, deadline: nat)
    requires MayWait(s, c) && wq !in s.locks
    ensures Does(s, [TimedBegin(c, wq, deadline), Push(c)],
                 InQueue(Ticketed(s, c, deadline), c, Timed(wq, deadline), wq))
  {
    var s0 := Ticketed(s, c, deadline);
    TimedGoes(s, c, wq, deadline);
    PushGoes(s0, c, Timed(wq, deadline), wq);
    LeadsTwo(s, TimedBegin(c, wq, deadline), Locked(s0, c, Timed(wq, deadline), wq), Push(c),
             InQueue(s0, c, Timed(wq, deadline), wq), Goes);
  }

  lemma TimedUntilGoes(s: State, c: Cpu, wq: QueueId, deadline: nat)
    requires MayWait(s, c) && wq !in s.locks && s.now < deadline
    ensures var s0, w := Ticketed(s, c, deadline), TimedUntil(wq, deadline);
            && Goes(s, TimedUntilBegin(c, wq, deadline), Inside(s0, c, w, Home))
            && Goes(Inside(s0, c, w, Home), TimedUntilCheck(c), Inside(s0, c, w, Checked))
  {
    var s0, w := Ticketed(s, c, deadline), TimedUntil(wq, deadline);
    var s1 := Next(s, TimedUntilBegin(c, wq, deadline));
    assert s1.tasks == Inside(s0, c, w, Home).tasks && s1.cpus == Inside(s0, c, w, Home).cpus;
    var s2 := WithPhase(Inside(s0, c, w, Home), c, Checked);
    assert s2.cpus == Inside(s0, c, w, Checked).cpus;
  }

  lemma TimedUntilBlocks(s: State, c: Cpu, w: Wait)
    requires HasCurrent(s, c) && w.TimedUntil? && w.wq !in s.locks
    ensures Goes(Inside(s, c, w, Checked), TimedUntilBlock(c), Locked(s, c, w, w.wq))
  {
    var s1, s2 := Next(Inside(s, c, w, Checked), TimedUntilBlock(c)), Locked(s, c, w, w.wq);
    assert s1.tasks == s2.tasks && s1.cpus == s2.cpus;
  }

  /** wait_timeout_until before its deadline, its condition false. */
  lemma TimedUntilCall(s: State, c: Cpu, wq: QueueId, deadline: nat)
    requires MayWait(s, c) && wq !in s.locks && s.now < deadline
    ensures Does(s, [TimedUntilBegin(c, wq, deadline), TimedUntilCheck(c), TimedUntilBlock(c), Push(c)],
                 InQueue(Ticketed(s, c, deadline), c, TimedUntil(wq, deadline), wq))
  {
    var s0, w := Ticketed(s, c, deadline), TimedUntil(wq, deadline);
    TimedUntilGoes(s, c, wq, deadline);
    TimedUntilBlocks(s0, c, w);
    PushGoes(s0, c, w, wq);
    LeadsFour(s, TimedUntilBegin(c, wq, deadline), Inside(s0, c, w, Home), TimedUntilCheck(c),
              Inside(s0, c, w, Checked), TimedUntilBlock(c), Locked(s0, c, w, wq), Push(c), InQueue(s0, c, w, wq),
              Goes);
  }

  /** sleep_until before its deadline: Blocked in no queue. */
  lemma SleepCall(s: State, c: Cpu, deadline: nat)
    requires MayWait(s, c) && s.now < deadline
    ensures var s0, t := Ticketed(s, c, deadline), s.cpus[c].current;
            Does(s, [SleepBegin(c, deadline)], s0.(
              tasks := s.tasks[t := s0.tasks[t].(
                state := Blocked, wait := Sleep(deadline), blocks := s.tasks[t].blocks + 1)],
              cpus := s.cpus[c := s.cpus[c].(phase := Resched)]))
  {
    var s1, t := Next(s, SleepBegin(c, deadline)), s.cpus[c].current;
    assert s1.tasks == s.tasks[t := s1.tasks[t]];
    LeadsOne(s, SleepBegin(c, deadline), s1, Goes);
  }

  /** The task is in no wait, its ticket has expired if the wait was timed, and an entry that is still in
      the queue is gone, however often it is there. */
  lemma ReturnCall(s: State, c: Cpu, wq: QueueId)
    requires AtHome(s, c) && wq !in s.locks
    requires var w := CurrentInfo(s, c).wait; w.HasQueue() && w.wq == wq
    ensures var t, i := s.cpus[c].current, CurrentInfo(s, c);
            var ticket := if i.wait.HasDeadline() then 0 else i.ticket;
            var s' := s.(tasks := s.tasks[t := i.(wait := NoWait, inWaitQueue := false, ticket := ticket)]);
            && Does(s, [Return(c)],
                    if i.inWaitQueue then s'.(queues := s.queues[wq := Without(Queue(s, wq), t)]) else s')
            && t !in Without(Queue(s, wq), t)
  {
    LeadsOne(s, Return(c), Next(s, Return(c)), Goes);
    assert multiset(Without(Queue(s, wq), s.cpus[c].current))[s.cpus[c].current] == 0;
  }

  // ---- Waking ----

  /** notify_one on a queue whose first task is Blocked and off its CPU: the task is out of the queue,
      Ready, and in the ready queue of the chosen CPU. */
  lemma NotifyCall(s: State, c: Cpu, wq: QueueId, target: Cpu)
    requires AtHome(s, c) && wq !in s.locks && target in s.cpus && Queue(s, wq) != [] && Queue(s, wq)[0] in s.tasks
    requires var i := s.tasks[Queue(s, wq)[0]]; i.state == Blocked && !i.onCpu
    ensures var t, k := Queue(s, wq)[0], s.cpus[target];
            var i := s.tasks[t];
            Does(s, [Notify(c, wq, 0), WakeExchange(c), WakeSpinDone(c), WakeInsert(c, target)], s.(
              tasks := s.tasks[t := i.(
                state := Ready, inWaitQueue := false, wakes := i.wakes + 1, inserts := i.inserts + 1)],
              cpus := s.cpus[target := k.(ready := k.ready + multiset{t})],
              queues := s.queues[wq := Queue(s, wq)[1..]]))
  {
    var t := Queue(s, wq)[0];
    var s1 := Popped(s, c, t, wq);
    PopGoes(s, c, wq);
    WakeGoes(s1, c, t, Some(wq), target);
    var s4 := Woken(s1, c, t, Some(wq), target);
    LeadsFour(s, Notify(c, wq, 0), s1, WakeExchange(c), InSpin(s1, c, t, Some(wq), Spin), WakeSpinDone(c),
              InSpin(s1, c, t, Some(wq), Insert), WakeInsert(c, target), s4, Goes);
    NotifyLeaves(s, c, wq, target);
  }

  lemma NotifyLeaves(s: State, c: Cpu, wq: QueueId, target: Cpu)
    requires AtHome(s, c) && wq !in s.locks && target in s.cpus && Queue(s, wq) != [] && Queue(s, wq)[0] in s.tasks
    ensures var t, k := Queue(s, wq)[0], s.cpus[target];
            var i := s.tasks[t];
            Woken(Popped(s, c, t, wq), c, t, Some(wq), target) == s.(
              tasks := s.tasks[t := i.(
                state := Ready, inWaitQueue := false, wakes := i.wakes + 1, inserts := i.inserts + 1)],
              cpus := s.cpus[target := k.(ready := k.ready + multiset{t})],
              queues := s.queues[wq := Queue(s, wq)[1..]])
  {
    var t := Queue(s, wq)[0];
    var s4 := Woken(Popped(s, c, t, wq), c, t, Some(wq), target);
    assert s4.tasks == s.tasks[t := s4.tasks[t]];
    assert s4.locks == s.locks;
    assert s4.cpus == s.cpus[target := s4.cpus[target]];
  }

  function Popped(s: State, c: Cpu, t: Task, wq: QueueId): State
    requires c in s.cpus && t in s.tasks && Queue(s, wq) != []
  {
    s.(tasks := s.tasks[t := s.tasks[t].(inWaitQueue := false)],
       cpus := s.cpus[c := s.cpus[c].(phase := Waking(t, Exchange, Some(wq)))],
       queues := s.queues[wq := Queue(s, wq)[1..]], locks := s.locks[wq := c])
  }

  lemma PopGoes(s: State, c: Cpu, wq: QueueId)
    requires AtHome(s, c) && wq !in s.locks && Queue(s, wq) != [] && Queue(s, wq)[0] in s.tasks
    ensures Goes(s, Notify(c, wq, 0), Popped(s, c, Queue(s, wq)[0], wq))
  {
    assert Queue(s, wq)[..0] + Queue(s, wq)[1..] == Queue(s, wq)[1..];
  }

  /** A waker that has won the exchange. */
  function InSpin(s: State, c: Cpu, t: Task, lock: Option<QueueId>, stage: WakeStage): State
    requires c in s.cpus && t in s.tasks
  {
    s.(tasks := s.tasks[t := s.tasks[t].(state := Ready, wakes := s.tasks[t].wakes + 1)],
       cpus := s.cpus[c := s.cpus[c].(phase := Waking(t, stage, lock))])
  }

  /** The waker is home again, and the task in the target's ready queue. */
  function Woken(s: State, c: Cpu, t: Task, lock: Option<QueueId>, target: Cpu): State
    requires c in s.cpus && t in s.tasks && target in s.cpus
  {
    var i, cpus := s.tasks[t], s.cpus[c := s.cpus[c].(phase := Home)];
    s.(tasks := s.tasks[t := i.(state := Ready, wakes := i.wakes + 1, inserts := i.inserts + 1)],
       cpus := cpus[target := cpus[target].(ready := cpus[target].ready + multiset{t})],
       locks := if lock.Some? then s.locks - {lock.value} else s.locks)
  }

  lemma WakeGoes(s: State, c: Cpu, t: Task, lock: Option<QueueId>, target: Cpu)
    requires c in s.cpus && t in s.tasks && target in s.cpus && s.cpus[c].phase == Waking(t, Exchange, lock)
    requires s.tasks[t].state == Blocked && !s.tasks[t].onCpu
    ensures Goes(s, WakeExchange(c), InSpin(s, c, t, lock, Spin))
    ensures Goes(InSpin(s, c, t, lock, Spin), WakeSpinDone(c), InSpin(s, c, t, lock, Insert))
    ensures Goes(InSpin(s, c, t, lock, Insert), WakeInsert(c, target), Woken(s, c, t, lock, target))
  {
    var s2 := Next(InSpin(s, c, t, lock, Spin), WakeSpinDone(c));
    assert s2.cpus == InSpin(s, c, t, lock, Insert).cpus;
    InsertGoes(s, c, t, lock, target);
  }

  lemma InsertGoes(s: State, c: Cpu, t: Task, lock: Option<QueueId>, target: Cpu)
    requires c in s.cpus && t in s.tasks && target in s.cpus
    ensures Goes(InSpin(s, c, t, lock, Insert), WakeInsert(c, target), Woken(s, c, t, lock, target))
  {
    var s3, s4 := DoInsert(InSpin(s, c, t, lock, Insert), c, target), Woken(s, c, t, lock, target);
    assert s3.tasks == s4.tasks && s3.cpus == s4.cpus;
  }

  /** A wakeup that comes too late, the task no longer being Blocked, changes nothing but the queue. */
  lemma LateNotifyCall(s: State, c: Cpu, wq: QueueId)
    requires AtHome(s, c) && wq !in s.locks && Queue(s, wq) != [] && Queue(s, wq)[0] in s.tasks
    requires s.tasks[Queue(s, wq)[0]].state != Blocked
    ensures var t := Queue(s, wq)[0];
            Does(s, [Notify(c, wq, 0), WakeExchange(c)], s.(
              tasks := s.tasks[t := s.tasks[t].(inWaitQueue := false)], queues := s.queues[wq := Queue(s, wq)[1..]]))
  {
    var t := Queue(s, wq)[0];
    PopGoes(s, c, wq);
    var s1 := Popped(s, c, t, wq);
    var s2 := Next(s1, WakeExchange(c));
    LeadsTwo(s, Notify(c, wq, 0), s1, WakeExchange(c), s2, Goes);
    assert s2.locks == s.locks;
    assert s2.cpus == s.cpus;
  }

  /** A due event with the task's ticket wakes it in the same way, and is gone. */
  lemma FireCall(s: State, c: Cpu, e: Event, target: Cpu)
    requires AtHome(s, c) && e in s.events && e.cpu == c && e.deadline <= s.now && target in s.cpus
    requires e.task in s.tasks && s.tasks[e.task].ticket == e.ticket
    requires s.tasks[e.task].state == Blocked && !s.tasks[e.task].onCpu
    ensures var t, k := e.task, s.cpus[target];
            var i := s.tasks[t];
            Does(s, [Fire(c, e), WakeExchange(c), WakeSpinDone(c), WakeInsert(c, target)], s.(
              tasks := s.tasks[t := i.(state := Ready, wakes := i.wakes + 1, inserts := i.inserts + 1)],
              cpus := s.cpus[target := k.(ready := k.ready + multiset{t})], events := s.events - {e}))
  {
    var t := e.task;
    var s1 := s.(cpus := s.cpus[c := s.cpus[c].(phase := Waking(t, Exchange, None))], events := s.events - {e});
    assert Goes(s, Fire(c, e), s1);
    WakeGoes(s1, c, t, None, target);
    var s4 := Woken(s1, c, t, None, target);
    LeadsFour(s, Fire(c, e), s1, WakeExchange(c), InSpin(s1, c, t, None, Spin), WakeSpinDone(c),
              InSpin(s1, c, t, None, Insert), WakeInsert(c, target), s4, Goes);
    assert s4.cpus == s.cpus[target := s4.cpus[target]];
  }

  /** One with another ticket is dropped. */
  lemma StaleFireCall(s: State, c: Cpu, e: Event)
    requires AtHome(s, c) && e in s.events && e.cpu == c && e.deadline <= s.now
    requires e.task in s.tasks && s.tasks[e.task].ticket != e.ticket
    ensures Does(s, [Fire(c, e)], s.(events := s.events - {e}))
  {
    LeadsOne(s, Fire(c, e), Next(s, Fire(c, e)), Goes);
  }

  // ---- Scheduling ----

  /** yield_now: the task is Ready in its CPU's own queue. */
  lemma YieldCall(s: State, c: Cpu)
    requires AtHome(s, c) && !IsIdle(s, s.cpus[c].current)
    ensures var t, k := s.cpus[c].current, s.cpus[c];
            Does(s, [Yield(c), PutPrev(c)], s.(
              tasks := s.tasks[t := s.tasks[t].(state := Ready)],
              cpus := s.cpus[c := k.(phase := Resched, ready := k.ready + multiset{t})]))
  {
    var s1 := Next(s, Yield(c));
    var s2 := Next(s1, PutPrev(c));
    LeadsTwo(s, Yield(c), s1, PutPrev(c), s2, Goes);
    assert s2.cpus == s.cpus[c := s2.cpus[c]];
  }

  /** The idle task enters no queue. */
  lemma IdleYieldCall(s: State, c: Cpu)
    requires AtHome(s, c) && IsIdle(s, s.cpus[c].current)
    ensures var t := s.cpus[c].current;
            Does(s, [Yield(c)], s.(
              tasks := s.tasks[t := s.tasks[t].(state := Ready)],
              cpus := s.cpus[c := s.cpus[c].(phase := Resched)]))
  {
    LeadsOne(s, Yield(c), Next(s, Yield(c)), Goes);
  }

  /** What resched may pick: a ready task, or the idle task if there is none. */
  predicate MayPick(s: State, c: Cpu, t: Task) {
    && c in s.cpus && s.cpus[c].phase == Resched && t in s.tasks && s.cpus[c].current in s.tasks
    && if s.cpus[c].ready == multiset{} then t == s.cpus[c].idle else t in s.cpus[c].ready
  }

  /** A switch to another task: it runs, off the ready queue, and the CPU has let go of the one before. */
  lemma SwitchCall(s: State, c: Cpu, t: Task)
    requires MayPick(s, c, t) && t != s.cpus[c].current
    ensures var p, k := s.cpus[c].current, s.cpus[c];
            Does(s, [Pick(c, t), Switch(c), Finish(c)], s.(
              tasks := s.tasks[t := s.tasks[t].(state := Running, onCpu := true)][p := s.tasks[p].(onCpu := false)],
              cpus := s.cpus[c := k.(current := t, phase := Home, ready := k.ready - multiset{t})]))
  {
    var s1 := Next(s, Pick(c, t));
    var s2 := Next(s1, Switch(c));
    var s3 := Next(s2, Finish(c));
    LeadsThree(s, Pick(c, t), s1, Switch(c), s2, Finish(c), s3, Goes);
    assert s3.cpus == s.cpus[c := s3.cpus[c]];
  }

  /** Picking the task that was there just lets it go on. */
  lemma SameTaskCall(s: State, c: Cpu)
    requires c in s.cpus && MayPick(s, c, s.cpus[c].current)
    ensures var t, k := s.cpus[c].current, s.cpus[c];
            Does(s, [Pick(c, t), Switch(c)], s.(
              tasks := s.tasks[t := s.tasks[t].(state := Running)],
              cpus := s.cpus[c := k.(phase := Home, ready := k.ready - multiset{t})]))
  {
    var t := s.cpus[c].current;
    var s1 := Next(s, Pick(c, t));
    var s2 := Next(s1, Switch(c));
    LeadsTwo(s, Pick(c, t), s1, Switch(c), s2, Goes);
    assert s2.cpus == s.cpus[c := s2.cpus[c]];
  }

  /** A new task is Ready in the queue of the chosen CPU. */
  lemma SpawnCall(s: State, c: Cpu, t: Task, target: Cpu)
    requires FreeHome(s, c) && t !in s.tasks && target in s.cpus
    ensures var k := s.cpus[target];
            Does(s, [Spawn(c, t, target)], s.(
              tasks := s.tasks[t := TaskInfo(Ready, false, false, 0, NoWait, None, 0, 0, 0)],
              cpus := s.cpus[target := k.(ready := k.ready + multiset{t})]))
  {
    LeadsOne(s, Spawn(c, t, target), Next(s, Spawn(c, t, target)), Goes);
  }

  /** A task that exits is Exited, in no queue, and its CPU goes on to another. */
  lemma ExitCall(s: State, c: Cpu)
    requires MayWait(s, c)
    ensures var t := s.cpus[c].current;
            Does(s, [Exit(c), ExitResched(c)], s.(
              tasks := s.tasks[t := s.tasks[t].(state := Exited)],
              cpus := s.cpus[c := s.cpus[c].(phase := Resched)]))
  {
    var s1 := Next(s, Exit(c));
    LeadsTwo(s, Exit(c), s1, ExitResched(c), Next(s1, ExitResched(c)), Goes);
  }

  /** Time passes. */
  lemma TickCall(s: State)
    ensures Does(s, [Tick], s.(now := s.now + 1))
  {
    LeadsOne(s, Tick, Next(s, Tick), Goes);
  }
}
