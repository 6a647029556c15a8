/**
 Placement: in every interleaving, on any number of CPUs, a task that is not
 idle is in at most one ready queue and at most once, is current on at most
 one CPU, and each time it blocks it is made ready by exactly one successful
 state exchange and queued by exactly one insertion.
 */
module TaskPlacement {
  import opened Options
  import opened TaskModel

  /** Who may next run a task that is Ready or Running. */
  datatype Owner =
    | OnCpu(c: Cpu)     // its code runs on c, or c is about to put it back
    | Queued(c: Cpu)    // in c's ready queue
    | Handed(c: Cpu)    // a waker on c has won the exchange and will insert it
    | Picked(c: Cpu)    // c took it from its queue and is switching to it
    | Off               // blocked, exited, or an idle task that is not wanted

  type Owners = map<Task, Owner>

  /** The CPU still uses the task's stack. */
  predicate Context(s: State, c: Cpu, t: Task)
    requires c in s.cpus
  {
    s.cpus[c].current == t || s.cpus[c].phase == Finishing(t)
  }

  ghost predicate PhaseOk(s: State, own: Owners, c: Cpu)
    requires c in s.cpus && s.cpus[c].current in s.tasks && own.Keys == s.tasks.Keys
  {
    var k := s.cpus[c];
    var cur := s.tasks[k.current];
    match k.phase
    case Home => own[k.current] == OnCpu(c) || cur.state == Exited
    case Checked => own[k.current] == OnCpu(c) && cur.idleOf == None
    case Blocking(_) => cur.idleOf == None && cur.state != Exited && (own[k.current].Off? || own[k.current].Handed?)
    case Putting => own[k.current] == OnCpu(c) && cur.idleOf == None
    case Resched => own[k.current] != OnCpu(c)
    case Switching(n) =>
      && own[k.current] != OnCpu(c)
      && n in s.tasks && own[n] == Picked(c) && (IsIdle(s, n) ==> n == k.idle)
    case Finishing(p) =>
      && own[k.current] == OnCpu(c)
      && p in s.tasks && p != k.current && s.tasks[p].onCpu && (IsIdle(s, p) ==> p == k.idle)
    case Waking(t, stage, _) =>
      && (own[k.current] == OnCpu(c) || cur.state == Exited)
      && t in s.tasks && s.tasks[t].idleOf == None
      && (stage != Exchange ==> own[t] == Handed(c))
      && (stage == Insert ==> !s.tasks[t].onCpu)
  }

  ghost predicate CpuOk(s: State, own: Owners, c: Cpu)
    requires c in s.cpus && own.Keys == s.tasks.Keys
  {
    var k := s.cpus[c];
    && k.current in s.tasks && s.tasks[k.current].onCpu
    && k.idle in s.tasks && s.tasks[k.idle].idleOf == Some(c)
    && (IsIdle(s, k.current) ==> k.current == k.idle)
    && PhaseOk(s, own, c)
    && (forall t | t in k.ready :: t in s.tasks && own[t] == Queued(c) && k.ready[t] == 1)
  }

  ghost predicate OwnerOk(s: State, own: Owners, t: Task)
    requires t in s.tasks && own.Keys == s.tasks.Keys
  {
    var i := s.tasks[t];
    match own[t]
    case OnCpu(c) =>
      && c in s.cpus && s.cpus[c].current == t
      && i.state == (if s.cpus[c].phase == Putting then Ready else Running)
    case Queued(c) =>
      && c in s.cpus && t in s.cpus[c].ready
      && i.state == Ready && !IsIdle(s, t)
      && (i.onCpu ==> Context(s, c, t))
    case Handed(c) =>
      && c in s.cpus && s.cpus[c].phase.Waking? && s.cpus[c].phase.task == t
      && s.cpus[c].phase.stage != Exchange
      && i.state == Ready && !IsIdle(s, t)
    case Picked(c) =>
      && c in s.cpus && s.cpus[c].phase == Switching(t)
      && i.state == Ready && (i.onCpu ==> s.cpus[c].current == t)
    case Off => i.state == Blocked || i.state == Exited || (i.state == Ready && IsIdle(s, t))
  }

  ghost predicate TaskOk(s: State, own: Owners, t: Task)
    requires t in s.tasks && own.Keys == s.tasks.Keys
  {
    var i := s.tasks[t];
    && OwnerOk(s, own, t)
    && (i.idleOf.Some? ==> i.idleOf.value in s.cpus && s.cpus[i.idleOf.value].idle == t
                           && i.state != Blocked && i.state != Exited
                           && (i.onCpu ==> Context(s, i.idleOf.value, t)))
    && i.blocks == i.wakes + (if i.state == Blocked then 1 else 0)
    && i.wakes == i.inserts + (if own[t].Handed? then 1 else 0)
  }

  /** Only tasks that can block enter wait queues or timer lists. */
  ghost predicate WaitersOk(s: State) {
    && (forall w, i | w in s.queues && 0 <= i < |s.queues[w]| ::
          s.queues[w][i] in s.tasks && !IsIdle(s, s.queues[w][i]))
    && (forall e | e in s.events :: e.task in s.tasks && !IsIdle(s, e.task))
  }

  /** No task is current on two CPUs, nor current on one and being left by another. */
  ghost predicate OneContext(s: State) {
    forall c, d | c in s.cpus && d in s.cpus && c != d ::
      && s.cpus[c].current != s.cpus[d].current
      && s.cpus[c].phase != Finishing(s.cpus[d].current)
      && (s.cpus[c].phase.Finishing? ==> s.cpus[c].phase != s.cpus[d].phase)
  }

  ghost predicate AllCpus(s: State, own: Owners) {
    && own.Keys == s.tasks.Keys
    && forall c {:trigger CpuOk(s, own, c)} | c in s.cpus :: CpuOk(s, own, c)
  }

  ghost predicate AllTasks(s: State, own: Owners) {
    && own.Keys == s.tasks.Keys
    && forall t {:trigger TaskOk(s, own, t)} | t in s.tasks :: TaskOk(s, own, t)
  }

  ghost predicate Placed(s: State, own: Owners) {
    AllCpus(s, own) && AllTasks(s, own) && WaitersOk(s) && OneContext(s)
  }

  // ---- Steps that touch one CPU and one task ----

  /** `s'` differs from `s`, among tasks, in `t0` only. */
  ghost predicate OneTask(s: State, own: Owners, s': State, own': Owners, t0: Task) {
    && own.Keys == s.tasks.Keys
    && t0 in s'.tasks && s'.tasks == s.tasks[t0 := s'.tasks[t0]]
    && t0 in own' && own' == own[t0 := own'[t0]]
    && (t0 in s.tasks ==> s'.tasks[t0].idleOf == s.tasks[t0].idleOf)
    && s'.cpus.Keys == s.cpus.Keys
    && (forall d | d in s.cpus :: s'.cpus[d].idle == s.cpus[d].idle)
  }

  /** CPU `d` has nothing to do with `t`. */
  ghost predicate Unclaimed(s: State, own: Owners, d: Cpu, t: Task)
    requires d in s.cpus
  {
    !Context(s, d, t) && (t in own ==> own[t].Off? || own[t].c != d)
  }

  /** CPU `c` still honours its claim on `t` in `s'`. */
  ghost predicate Keeps(s: State, own: Owners, s': State, c: Cpu, t: Task)
    requires t in s.tasks && t in own && c in s'.cpus
  {
    && own[t] != OnCpu(c) && own[t] != Handed(c) && own[t] != Picked(c)
    && (own[t] == Queued(c) ==> t in s'.cpus[c].ready && (s.tasks[t].onCpu ==> Context(s', c, t)))
  }

  lemma OtherCpu(s: State, own: Owners, s': State, own': Owners, t0: Task, d: Cpu)
    requires OneTask(s, own, s', own', t0) && d in s.cpus && s'.cpus[d] == s.cpus[d]
    requires Unclaimed(s, own, d, t0) && CpuOk(s, own, d)
    ensures CpuOk(s', own', d)
  {
  }

  lemma OtherTask(s: State, own: Owners, s': State, own': Owners, c: Cpu, t0: Task, t: Task)
    requires OneTask(s, own, s', own', t0) && t in s.tasks && t != t0
    requires c in s.cpus && s'.cpus == s.cpus[c := s'.cpus[c]]
    requires TaskOk(s, own, t) && Keeps(s, own, s', c, t)
    requires Context(s, c, t) ==> Context(s', c, t)
    ensures TaskOk(s', own', t)
  {
  }

  lemma OtherContexts(s: State, own: Owners, s': State, c: Cpu, t0: Task)
    requires OneContext(s) && c in s.cpus && c in s'.cpus && s'.cpus == s.cpus[c := s'.cpus[c]]
    requires forall d | d in s.cpus && d != c :: Unclaimed(s, own, d, t0)
    requires s'.cpus[c].current == s.cpus[c].current || s'.cpus[c].current == t0
    requires s'.cpus[c].phase.Finishing? ==> Context(s, c, s'.cpus[c].phase.prev)
    ensures OneContext(s')
  {
    forall d, e | d in s'.cpus && e in s'.cpus && d != e
      ensures s'.cpus[d].current != s'.cpus[e].current
      ensures s'.cpus[d].phase != Finishing(s'.cpus[e].current)
      ensures s'.cpus[d].phase.Finishing? ==> s'.cpus[d].phase != s'.cpus[e].phase
    {
      assert d != c ==> Unclaimed(s, own, d, t0);
      assert e != c ==> Unclaimed(s, own, e, t0);
    }
  }

  lemma OtherCpus(s: State, own: Owners, s': State, own': Owners, c: Cpu, t0: Task)
    requires AllCpus(s, own) && OneTask(s, own, s', own', t0)
    requires c in s.cpus && s'.cpus == s.cpus[c := s'.cpus[c]]
    requires forall d | d in s.cpus && d != c :: Unclaimed(s, own, d, t0)
    requires CpuOk(s', own', c)
    ensures AllCpus(s', own')
  {
    forall d | d in s'.cpus ensures CpuOk(s', own', d) {
      if d != c { AnyOtherCpu(s, own, s', own', c, t0, d); }
    }
    CpusAgree(s', own');
  }

  lemma AnyOtherCpu(s: State, own: Owners, s': State, own': Owners, c: Cpu, t0: Task, d: Cpu)
    requires AllCpus(s, own) && OneTask(s, own, s', own', t0) && c in s.cpus && s'.cpus == s.cpus[c := s'.cpus[c]]
    requires d in s.cpus && d != c && Unclaimed(s, own, d, t0)
    ensures CpuOk(s', own', d)
  {
    assert CpuOk(s, own, d);
    OtherCpu(s, own, s', own', t0, d);
  }

  lemma OtherTasks(s: State, own: Owners, s': State, own': Owners, c: Cpu, t0: Task)
    requires AllTasks(s, own) && OneTask(s, own, s', own', t0) && TaskOk(s', own', t0)
    requires c in s.cpus && s'.cpus == s.cpus[c := s'.cpus[c]]
    requires forall t | Context(s, c, t) && t != t0 :: Context(s', c, t)
    requires forall t | t in s.tasks && t != t0 :: Keeps(s, own, s', c, t)
    ensures AllTasks(s', own')
  {
    forall t | t in s'.tasks ensures TaskOk(s', own', t) {
      if t != t0 {
        assert TaskOk(s, own, t);
        OtherTask(s, own, s', own', c, t0, t);
      }
    }
  }

  /** A task no other CPU runs is claimed by its owner alone. */
  lemma OwnedUnclaimed(s: State, own: Owners, c: Cpu, t: Task)
    requires AllCpus(s, own) && OneContext(s) && c in s.cpus && t in s.tasks
    requires own[t].Off? || own[t].c == c
    requires s.tasks[t].onCpu ==> Context(s, c, t)
    ensures forall d | d in s.cpus && d != c :: Unclaimed(s, own, d, t)
  {
    forall d | d in s.cpus && d != c ensures Unclaimed(s, own, d, t) { assert CpuOk(s, own, d); }
  }

  /** `c` has no claim to give up besides the one on `t0`, and keeps its queue and contexts. */
  ghost predicate OnlyTouches(s: State, own: Owners, s': State, c: Cpu, t0: Task)
    requires c in s.cpus && c in s'.cpus && s.cpus[c].current in own
  {
    && (s.cpus[c].phase.Waking? ==> s.cpus[c].phase.stage == Exchange)
    && (s.cpus[c].phase.Switching? ==> s.cpus[c].phase.next == t0)
    && (s.cpus[c].current != t0 ==> own[s.cpus[c].current] != OnCpu(c))
    && (forall t | t in s.cpus[c].ready && t != t0 :: t in s'.cpus[c].ready)
    && (forall t | Context(s, c, t) && t != t0 :: Context(s', c, t))
    && (s'.cpus[c].current == s.cpus[c].current || s'.cpus[c].current == t0)
    && (s'.cpus[c].phase.Finishing? ==> Context(s, c, s'.cpus[c].phase.prev))
  }

  lemma KeepsOthers(s: State, own: Owners, s': State, c: Cpu, t0: Task)
    requires AllTasks(s, own) && HasCurrent(s, c) && c in s'.cpus && OnlyTouches(s, own, s', c, t0)
    ensures forall t | t in s.tasks && t != t0 :: Keeps(s, own, s', c, t)
  {
    forall t | t in s.tasks && t != t0 ensures Keeps(s, own, s', c, t) {
      assert TaskOk(s, own, t);
    }
  }

  /** The part of the invariant a step of `c` on `t0` reads and must restore. */
  ghost predicate Here(s: State, own: Owners, c: Cpu, t0: Task) {
    && own.Keys == s.tasks.Keys && c in s.cpus && t0 in s.tasks
    && CpuOk(s, own, c) && TaskOk(s, own, t0) && TaskOk(s, own, s.cpus[c].current)
  }

  lemma Facts(s: State, own: Owners, c: Cpu, t: Task)
    requires Placed(s, own) && c in s.cpus && t in s.tasks
    ensures Here(s, own, c, t)
  {
    assert CpuOk(s, own, c);
  }

  /** A step of CPU `c` on task `t0` preserves the invariant if it does so locally. */
  lemma LocalStep(s: State, own: Owners, s': State, own': Owners, c: Cpu, t0: Task)
    requires Placed(s, own) && OneTask(s, own, s', own', t0)
    requires HasCurrent(s, c) && s'.cpus == s.cpus[c := s'.cpus[c]] && OnlyTouches(s, own, s', c, t0)
    requires t0 in s.tasks && (own[t0].Off? || own[t0].c == c) && (s.tasks[t0].onCpu ==> Context(s, c, t0))
    requires CpuOk(s', own', c) && TaskOk(s', own', t0)
    requires s'.queues == s.queues && s'.events == s.events
    ensures Placed(s', own')
  {
    OwnedUnclaimed(s, own, c, t0);
    OtherCpus(s, own, s', own', c, t0);
    KeepsOthers(s, own, s', c, t0);
    OtherTasks(s, own, s', own', c, t0);
    OtherContexts(s, own, s', c, t0);
  }

  /** Only the owner fields of tasks and the CPUs matter to placement. */
  ghost predicate SameCore(s: State, s': State) {
    && s'.cpus == s.cpus && s'.tasks.Keys == s.tasks.Keys
    && forall t | t in s.tasks ::
         var i, j := s.tasks[t], s'.tasks[t];
         && j.state == i.state && j.onCpu == i.onCpu && j.idleOf == i.idleOf
         && j.blocks == i.blocks && j.wakes == i.wakes && j.inserts == i.inserts
  }

  lemma CorePlaced(s: State, own: Owners, s': State)
    requires Placed(s, own) && SameCore(s, s') && WaitersOk(s')
    ensures Placed(s', own)
  {
    forall c | c in s'.cpus ensures CpuOk(s', own, c) { assert CpuOk(s, own, c); }
    forall t | t in s'.tasks ensures TaskOk(s', own, t) { assert TaskOk(s, own, t); }
  }

  // ---- The steps ----

  lemma BlockHere(s: State, own: Owners, c: Cpu, w: Wait, p: Phase)
    requires HasCurrent(s, c) && Here(s, own, c, s.cpus[c].current) && !IsIdle(s, s.cpus[c].current)
    requires CurrentInfo(s, c).state == Running && (p.Blocking? || p == Resched)
    ensures Here(Block(s, c, w, p), own[s.cpus[c].current := Off], c, s.cpus[c].current)
  {
  }

  lemma BlockPlaced(s: State, own: Owners, c: Cpu, w: Wait, p: Phase)
    requires Placed(s, own) && HasCurrent(s, c) && !IsIdle(s, s.cpus[c].current)
    requires CurrentInfo(s, c).state == Running
    requires s.cpus[c].phase == Home || s.cpus[c].phase == Checked
    requires p.Blocking? || p == Resched
    ensures Placed(Block(s, c, w, p), own[s.cpus[c].current := Off])
  {
    var t0 := s.cpus[c].current;
    var s', own' := Block(s, c, w, p), own[t0 := Off];
    Facts(s, own, c, t0);
    BlockHere(s, own, c, w, p);
    LocalStep(s, own, s', own', c, t0);
  }

  lemma YieldHere(s: State, own: Owners, c: Cpu)
    requires AtHome(s, c) && Here(s, own, c, s.cpus[c].current)
    ensures Here(DoYield(s, c), if IsIdle(s, s.cpus[c].current) then own[s.cpus[c].current := Off] else own,
                 c, s.cpus[c].current)
  {
  }

  lemma YieldPlaced(s: State, own: Owners, c: Cpu)
    requires Placed(s, own) && AtHome(s, c)
    ensures Placed(DoYield(s, c), if IsIdle(s, s.cpus[c].current) then own[s.cpus[c].current := Off] else own)
  {
    var t0 := s.cpus[c].current;
    var s', own' := DoYield(s, c), if IsIdle(s, t0) then own[t0 := Off] else own;
    Facts(s, own, c, t0);
    YieldHere(s, own, c);
    LocalStep(s, own, s', own', c, t0);
  }

  lemma PutPrevHere(s: State, own: Owners, c: Cpu)
    requires c in s.cpus && s.cpus[c].phase == Putting && Here(s, own, c, s.cpus[c].current)
    ensures Here(DoPutPrev(s, c), own[s.cpus[c].current := Queued(c)], c, s.cpus[c].current)
  {
  }

  lemma PutPrevPlaced(s: State, own: Owners, c: Cpu)
    requires Placed(s, own) && c in s.cpus && s.cpus[c].phase == Putting
    ensures Placed(DoPutPrev(s, c), own[s.cpus[c].current := Queued(c)])
  {
    assert CpuOk(s, own, c);
    var t0 := s.cpus[c].current;
    var s', own' := DoPutPrev(s, c), own[t0 := Queued(c)];
    Facts(s, own, c, t0);
    PutPrevHere(s, own, c);
    LocalStep(s, own, s', own', c, t0);
  }

  /** resched asserts that the task it picks is Ready. */
  lemma PickedIsReady(s: State, own: Owners, c: Cpu, t: Task)
    requires Placed(s, own) && Enabled(s, Pick(c, t))
    ensures t in s.tasks && s.tasks[t].state == Ready
    ensures own[t] == (if s.cpus[c].ready == multiset{} then Off else Queued(c))
    ensures s.tasks[t].onCpu ==> Context(s, c, t)
  {
    assert CpuOk(s, own, c) && TaskOk(s, own, t);
    if s.cpus[c].ready == multiset{} && !own[t].Off? {
      Facts(s, own, own[t].c, t);
    }
  }

  lemma PickHere(s: State, own: Owners, c: Cpu, t0: Task)
    requires Here(s, own, c, t0) && s.cpus[c].phase == Resched
    requires s.tasks[t0].state == Ready && (own[t0] == Queued(c) || (own[t0].Off? && t0 == s.cpus[c].idle))
    ensures Here(DoPick(s, c, t0), own[t0 := Picked(c)], c, t0)
  {
  }

  lemma PickPlaced(s: State, own: Owners, c: Cpu, t0: Task)
    requires Placed(s, own) && Enabled(s, Pick(c, t0))
    ensures Placed(DoPick(s, c, t0), own[t0 := Picked(c)])
  {
    PickedIsReady(s, own, c, t0);
    var s', own' := DoPick(s, c, t0), own[t0 := Picked(c)];
    Facts(s, own, c, t0);
    PickHere(s, own, c, t0);
    LocalStep(s, own, s', own', c, t0);
  }

  lemma SwitchHere(s: State, own: Owners, c: Cpu)
    requires c in s.cpus && s.cpus[c].phase.Switching? && Here(s, own, c, s.cpus[c].phase.next)
    ensures Here(DoSwitch(s, c), own[s.cpus[c].phase.next := OnCpu(c)], c, s.cpus[c].phase.next)
  {
  }

  lemma SwitchPlaced(s: State, own: Owners, c: Cpu)
    requires Placed(s, own) && c in s.cpus && s.cpus[c].phase.Switching? && s.cpus[c].phase.next in s.tasks
    ensures Placed(DoSwitch(s, c), own[s.cpus[c].phase.next := OnCpu(c)])
  {
    var t0 := s.cpus[c].phase.next;
    var s', own' := DoSwitch(s, c), own[t0 := OnCpu(c)];
    Facts(s, own, c, t0);
    SwitchHere(s, own, c);
    LocalStep(s, own, s', own', c, t0);
  }

  lemma ExitHere(s: State, own: Owners, c: Cpu)
    requires AtHome(s, c) && Here(s, own, c, s.cpus[c].current) && !IsIdle(s, s.cpus[c].current)
    ensures Here(DoExit(s, c), own[s.cpus[c].current := Off], c, s.cpus[c].current)
  {
  }

  lemma ExitPlaced(s: State, own: Owners, c: Cpu)
    requires Placed(s, own) && AtHome(s, c) && !IsIdle(s, s.cpus[c].current)
    ensures Placed(DoExit(s, c), own[s.cpus[c].current := Off])
  {
    var t0 := s.cpus[c].current;
    var s', own' := DoExit(s, c), own[t0 := Off];
    Facts(s, own, c, t0);
    ExitHere(s, own, c);
    LocalStep(s, own, s', own', c, t0);
  }

  lemma FinishCpu(s: State, own: Owners, c: Cpu, d: Cpu)
    requires own.Keys == s.tasks.Keys && OneContext(s)
    requires c in s.cpus && s.cpus[c].phase.Finishing? && CpuOk(s, own, c)
    requires d in s.cpus && CpuOk(s, own, d)
    ensures CpuOk(DoFinish(s, c), own, d)
  {
  }

  lemma FinishTask(s: State, own: Owners, c: Cpu, t: Task)
    requires own.Keys == s.tasks.Keys
    requires c in s.cpus && s.cpus[c].phase.Finishing? && CpuOk(s, own, c)
    requires t in s.tasks && TaskOk(s, own, t)
    ensures TaskOk(DoFinish(s, c), own, t)
  {
  }

  lemma FinishPlaced(s: State, own: Owners, c: Cpu)
    requires Placed(s, own) && c in s.cpus && s.cpus[c].phase.Finishing? && s.cpus[c].phase.prev in s.tasks
    ensures Placed(DoFinish(s, c), own)
  {
    FinishCpus(s, own, c);
    FinishTasks(s, own, c);
  }

  lemma FinishCpus(s: State, own: Owners, c: Cpu)
    requires AllCpus(s, own) && OneContext(s)
    requires c in s.cpus && s.cpus[c].phase.Finishing? && s.cpus[c].phase.prev in s.tasks
    ensures AllCpus(DoFinish(s, c), own)
  {
    forall d | d in s.cpus ensures CpuOk(DoFinish(s, c), own, d) {
      assert CpuOk(s, own, c) && CpuOk(s, own, d);
      FinishCpu(s, own, c, d);
    }
  }

  lemma FinishTasks(s: State, own: Owners, c: Cpu)
    requires AllTasks(s, own) && AllCpus(s, own)
    requires c in s.cpus && s.cpus[c].phase.Finishing? && s.cpus[c].phase.prev in s.tasks
    ensures AllTasks(DoFinish(s, c), own)
  {
    forall t | t in s.tasks ensures TaskOk(DoFinish(s, c), own, t) {
      assert CpuOk(s, own, c) && TaskOk(s, own, t);
      FinishTask(s, own, c, t);
    }
  }

  lemma ExchangeSelf(s: State, own: Owners, c: Cpu)
    requires own.Keys == s.tasks.Keys && Enabled(s, WakeExchange(c)) && CpuOk(s, own, c)
    requires s.tasks[s.cpus[c].phase.task].state == Blocked && own[s.cpus[c].phase.task].Off?
    ensures CpuOk(DoExchange(s, c), own[s.cpus[c].phase.task := Handed(c)], c)
  {
  }

  /** The blocked task may still be the context of the CPU it is leaving. */
  lemma ExchangeRemote(s: State, own: Owners, c: Cpu, d: Cpu)
    requires own.Keys == s.tasks.Keys && Enabled(s, WakeExchange(c))
    requires s.tasks[s.cpus[c].phase.task].state == Blocked && own[s.cpus[c].phase.task].Off?
    requires d in s.cpus && d != c && CpuOk(s, own, d)
    ensures CpuOk(DoExchange(s, c), own[s.cpus[c].phase.task := Handed(c)], d)
  {
  }

  lemma ExchangeTask(s: State, own: Owners, c: Cpu, t: Task)
    requires own.Keys == s.tasks.Keys && Enabled(s, WakeExchange(c)) && CpuOk(s, own, c)
    requires s.tasks[s.cpus[c].phase.task].state == Blocked
    requires t in s.tasks && TaskOk(s, own, t)
    ensures TaskOk(DoExchange(s, c), own[s.cpus[c].phase.task := Handed(c)], t)
  {
  }

  lemma ExchangePlaced(s: State, own: Owners, c: Cpu)
    requires Placed(s, own) && Enabled(s, WakeExchange(c))
    requires s.tasks[s.cpus[c].phase.task].state == Blocked
    ensures Placed(DoExchange(s, c), own[s.cpus[c].phase.task := Handed(c)])
  {
    ExchangeCpus(s, own, c);
    ExchangeTasks(s, own, c);
  }

  lemma ExchangeCpus(s: State, own: Owners, c: Cpu)
    requires AllCpus(s, own) && AllTasks(s, own) && Enabled(s, WakeExchange(c))
    requires s.tasks[s.cpus[c].phase.task].state == Blocked
    ensures AllCpus(DoExchange(s, c), own[s.cpus[c].phase.task := Handed(c)])
  {
    var s', own' := DoExchange(s, c), own[s.cpus[c].phase.task := Handed(c)];
    assert TaskOk(s, own, s.cpus[c].phase.task);
    forall d | d in s.cpus ensures CpuOk(s', own', d) {
      assert CpuOk(s, own, c) && CpuOk(s, own, d);
      if d == c { ExchangeSelf(s, own, c); } else { ExchangeRemote(s, own, c, d); }
    }
  }

  lemma ExchangeTasks(s: State, own: Owners, c: Cpu)
    requires AllCpus(s, own) && AllTasks(s, own) && Enabled(s, WakeExchange(c))
    requires s.tasks[s.cpus[c].phase.task].state == Blocked
    ensures AllTasks(DoExchange(s, c), own[s.cpus[c].phase.task := Handed(c)])
  {
    var s', own' := DoExchange(s, c), own[s.cpus[c].phase.task := Handed(c)];
    forall t | t in s.tasks ensures TaskOk(s', own', t) {
      assert CpuOk(s, own, c) && TaskOk(s, own, t);
      ExchangeTask(s, own, c, t);
    }
  }

  /** The waker's own CPU, back home; it may also be the target. */
  lemma InsertSelf(s: State, own: Owners, c: Cpu, target: Cpu)
    requires own.Keys == s.tasks.Keys && Enabled(s, WakeInsert(c, target)) && CpuOk(s, own, c)
    ensures CpuOk(DoInsert(s, c, target), own[s.cpus[c].phase.task := Queued(target)], c)
  {
    var t0 := s.cpus[c].phase.task;
    var s', own' := DoInsert(s, c, target), own[t0 := Queued(target)];
    assert t0 != s.cpus[c].current && t0 !in s.cpus[c].ready;
    var k := s'.cpus[c];
    assert k.current == s.cpus[c].current && k.idle == s.cpus[c].idle && k.phase == Home;
    assert s'.tasks[k.current] == s.tasks[k.current];
    forall t | t in k.ready ensures t in s'.tasks && own'[t] == Queued(c) && k.ready[t] == 1 {
      assert t == t0 || t in s.cpus[c].ready;
    }
  }

  /** What an insertion does to the task and to a remote target. */
  lemma InsertFacts(s: State, c: Cpu, d: Cpu)
    requires Enabled(s, WakeInsert(c, d)) && d != c
    ensures var s', t0 := DoInsert(s, c, d), s.cpus[c].phase.task;
            && s'.tasks == s.tasks[t0 := s.tasks[t0].(inserts := s.tasks[t0].inserts + 1)]
            && s'.cpus.Keys == s.cpus.Keys
            && s'.cpus[d] == s.cpus[d].(ready := s.cpus[d].ready + multiset{t0})
  {
  }

  /** A CPU whose ready queue alone gains a task that was handed over elsewhere. */
  lemma GainsTask(s: State, own: Owners, s': State, d: Cpu, t0: Task, info: TaskInfo)
    requires own.Keys == s.tasks.Keys && d in s.cpus && CpuOk(s, own, d) && t0 in s.tasks
    requires !Context(s, d, t0) && own[t0].Handed? && own[t0].c != d
    requires info.idleOf == s.tasks[t0].idleOf && info.onCpu == s.tasks[t0].onCpu
    requires s'.tasks == s.tasks[t0 := info] && d in s'.cpus
    requires s'.cpus[d] == s.cpus[d].(ready := s.cpus[d].ready + multiset{t0})
    ensures CpuOk(s', own[t0 := Queued(d)], d)
  {
    assert t0 !in s.cpus[d].ready;
    var k := s'.cpus[d];
    forall t | t in k.ready ensures t == t0 || t in s.cpus[d].ready {}
    GainsPhase(s, own, s', d, t0, info);
  }

  lemma GainsPhase(s: State, own: Owners, s': State, d: Cpu, t0: Task, info: TaskInfo)
    requires own.Keys == s.tasks.Keys && d in s.cpus && s.cpus[d].current in s.tasks && PhaseOk(s, own, d)
             && t0 in s.tasks
    requires !Context(s, d, t0) && own[t0].Handed? && own[t0].c != d
    requires info.idleOf == s.tasks[t0].idleOf && info.onCpu == s.tasks[t0].onCpu
    requires s'.tasks == s.tasks[t0 := info] && d in s'.cpus
    requires s'.cpus[d] == s.cpus[d].(ready := s.cpus[d].ready + multiset{t0})
    ensures PhaseOk(s', own[t0 := Queued(d)], d)
  {
  }

  /** A remote target: only its ready queue changes. */
  lemma InsertTarget(s: State, own: Owners, c: Cpu, d: Cpu)
    requires own.Keys == s.tasks.Keys && Enabled(s, WakeInsert(c, d)) && CpuOk(s, own, c)
    requires d != c && CpuOk(s, own, d)
    ensures CpuOk(DoInsert(s, c, d), own[s.cpus[c].phase.task := Queued(d)], d)
  {
    var t0 := s.cpus[c].phase.task;
    assert own[t0] == Handed(c) && !s.tasks[t0].onCpu;
    InsertFacts(s, c, d);
    GainsTask(s, own, DoInsert(s, c, d), d, t0, s.tasks[t0].(inserts := s.tasks[t0].inserts + 1));
  }

  lemma InsertCpu(s: State, own: Owners, c: Cpu, target: Cpu, d: Cpu)
    requires own.Keys == s.tasks.Keys && Enabled(s, WakeInsert(c, target)) && CpuOk(s, own, c)
    requires d in s.cpus && CpuOk(s, own, d)
    ensures CpuOk(DoInsert(s, c, target), own[s.cpus[c].phase.task := Queued(target)], d)
  {
    if d == c {
      InsertSelf(s, own, c, target);
    } else if d == target {
      InsertTarget(s, own, c, d);
    } else {
      InsertThird(s, own, c, target, d);
    }
  }

  lemma InsertUnclaimed(s: State, own: Owners, c: Cpu, target: Cpu, d: Cpu)
    requires own.Keys == s.tasks.Keys && Enabled(s, WakeInsert(c, target)) && CpuOk(s, own, c)
    requires d in s.cpus && d != c && CpuOk(s, own, d)
    ensures Unclaimed(s, own, d, s.cpus[c].phase.task)
  {
  }

  lemma InsertThird(s: State, own: Owners, c: Cpu, target: Cpu, d: Cpu)
    requires own.Keys == s.tasks.Keys && Enabled(s, WakeInsert(c, target)) && CpuOk(s, own, c)
    requires d in s.cpus && d != c && d != target && CpuOk(s, own, d)
    ensures CpuOk(DoInsert(s, c, target), own[s.cpus[c].phase.task := Queued(target)], d)
  {
    var t0 := s.cpus[c].phase.task;
    InsertOneTask(s, own, c, target);
    InsertUnclaimed(s, own, c, target, d);
    OtherCpu(s, own, DoInsert(s, c, target), own[t0 := Queued(target)], t0, d);
  }

  lemma InsertOneTask(s: State, own: Owners, c: Cpu, target: Cpu)
    requires own.Keys == s.tasks.Keys && Enabled(s, WakeInsert(c, target))
    ensures OneTask(s, own, DoInsert(s, c, target), own[s.cpus[c].phase.task := Queued(target)], s.cpus[c].phase.task)
    ensures forall d | d in s.cpus && d != c && d != target :: DoInsert(s, c, target).cpus[d] == s.cpus[d]
  {
  }

  lemma InsertedTask(s: State, own: Owners, c: Cpu, target: Cpu)
    requires own.Keys == s.tasks.Keys && Enabled(s, WakeInsert(c, target)) && CpuOk(s, own, c)
    requires TaskOk(s, own, s.cpus[c].phase.task)
    ensures TaskOk(DoInsert(s, c, target), own[s.cpus[c].phase.task := Queued(target)], s.cpus[c].phase.task)
  {
  }

  lemma InsertOther(s: State, own: Owners, c: Cpu, target: Cpu, t: Task)
    requires own.Keys == s.tasks.Keys && Enabled(s, WakeInsert(c, target)) && CpuOk(s, own, c)
    requires t in s.tasks && t != s.cpus[c].phase.task && TaskOk(s, own, t)
    ensures TaskOk(DoInsert(s, c, target), own[s.cpus[c].phase.task := Queued(target)], t)
  {
  }

  lemma InsertCpus(s: State, own: Owners, c: Cpu, target: Cpu)
    requires AllCpus(s, own) && Enabled(s, WakeInsert(c, target))
    ensures AllCpus(DoInsert(s, c, target), own[s.cpus[c].phase.task := Queued(target)])
  {
    var s', own' := DoInsert(s, c, target), own[s.cpus[c].phase.task := Queued(target)];
    InsertKeys(s, c, target);
    forall d | d in s'.cpus ensures CpuOk(s', own', d) {
      InsertAnyCpu(s, own, c, target, d);
    }
    CpusAgree(s', own');
  }

  lemma CpusAgree(s: State, own: Owners)
    requires own.Keys == s.tasks.Keys && forall d | d in s.cpus :: CpuOk(s, own, d)
    ensures AllCpus(s, own)
  {
  }

  lemma InsertKeys(s: State, c: Cpu, target: Cpu)
    requires Enabled(s, WakeInsert(c, target))
    ensures DoInsert(s, c, target).cpus.Keys == s.cpus.Keys && DoInsert(s, c, target).tasks.Keys == s.tasks.Keys
  {
  }

  lemma InsertAnyCpu(s: State, own: Owners, c: Cpu, target: Cpu, d: Cpu)
    requires AllCpus(s, own) && Enabled(s, WakeInsert(c, target)) && d in s.cpus
    ensures CpuOk(DoInsert(s, c, target), own[s.cpus[c].phase.task := Queued(target)], d)
  {
    assert CpuOk(s, own, c) && CpuOk(s, own, d);
    InsertCpu(s, own, c, target, d);
  }

  lemma InsertTasks(s: State, own: Owners, c: Cpu, target: Cpu)
    requires AllCpus(s, own) && AllTasks(s, own) && Enabled(s, WakeInsert(c, target))
    ensures AllTasks(DoInsert(s, c, target), own[s.cpus[c].phase.task := Queued(target)])
  {
    var s', own' := DoInsert(s, c, target), own[s.cpus[c].phase.task := Queued(target)];
    forall t | t in s.tasks ensures TaskOk(s', own', t) {
      assert CpuOk(s, own, c) && TaskOk(s, own, t);
      if t == s.cpus[c].phase.task { InsertedTask(s, own, c, target); } else { InsertOther(s, own, c, target, t); }
    }
  }

  lemma InsertPlaced(s: State, own: Owners, c: Cpu, target: Cpu)
    requires Placed(s, own) && Enabled(s, WakeInsert(c, target))
    ensures Placed(DoInsert(s, c, target), own[s.cpus[c].phase.task := Queued(target)])
  {
    InsertCpus(s, own, c, target);
    InsertTasks(s, own, c, target);
  }

  lemma SpawnPhase(s: State, own: Owners, t0: Task, target: Cpu, d: Cpu)
    requires own.Keys == s.tasks.Keys && t0 !in s.tasks && target in s.cpus
    requires d in s.cpus && s.cpus[d].current in s.tasks && PhaseOk(s, own, d)
    ensures PhaseOk(DoSpawn(s, t0, target), own[t0 := Queued(target)], d)
  {
    var s' := DoSpawn(s, t0, target);
    assert s'.cpus[d].phase == s.cpus[d].phase && s'.cpus[d].current == s.cpus[d].current
        && s'.cpus[d].idle == s.cpus[d].idle;
  }

  lemma SpawnCpu(s: State, own: Owners, t0: Task, target: Cpu, d: Cpu)
    requires own.Keys == s.tasks.Keys && t0 !in s.tasks && target in s.cpus
    requires d in s.cpus && CpuOk(s, own, d)
    ensures CpuOk(DoSpawn(s, t0, target), own[t0 := Queued(target)], d)
  {
    SpawnPhase(s, own, t0, target, d);
    SpawnReady(s, own, t0, target, d);
  }

  lemma SpawnReady(s: State, own: Owners, t0: Task, target: Cpu, d: Cpu)
    requires own.Keys == s.tasks.Keys && t0 !in s.tasks && target in s.cpus && d in s.cpus
    requires forall t | t in s.cpus[d].ready :: t in s.tasks && own[t] == Queued(d) && s.cpus[d].ready[t] == 1
    ensures var k := DoSpawn(s, t0, target).cpus[d];
            forall t | t in k.ready :: t in s.tasks + map[t0 := FreshTask()]
                && own[t0 := Queued(target)][t] == Queued(d) && k.ready[t] == 1
  {
    var k := DoSpawn(s, t0, target).cpus[d];
    assert t0 !in s.cpus[d].ready;
    forall t | t in k.ready ensures t == t0 || t in s.cpus[d].ready {}
  }

  lemma SpawnTask(s: State, own: Owners, t0: Task, target: Cpu, t: Task)
    requires own.Keys == s.tasks.Keys && t0 !in s.tasks && target in s.cpus
    requires t in s.tasks ==> TaskOk(s, own, t)
    requires t in s.tasks || t == t0
    ensures TaskOk(DoSpawn(s, t0, target), own[t0 := Queued(target)], t)
  {
  }

  lemma SpawnPlaced(s: State, own: Owners, t0: Task, target: Cpu)
    requires Placed(s, own) && t0 !in s.tasks && target in s.cpus
    ensures Placed(DoSpawn(s, t0, target), own[t0 := Queued(target)])
  {
    var s', own' := DoSpawn(s, t0, target), own[t0 := Queued(target)];
    forall d | d in s'.cpus ensures CpuOk(s', own', d) {
      assert CpuOk(s, own, d);
      SpawnCpu(s, own, t0, target, d);
    }
    forall t | t in s'.tasks ensures TaskOk(s', own', t) {
      assert t in s.tasks ==> TaskOk(s, own, t);
      SpawnTask(s, own, t0, target, t);
    }
    SpawnWaiters(s, t0, target);
  }

  lemma SpawnWaiters(s: State, t0: Task, target: Cpu)
    requires WaitersOk(s) && OneContext(s) && t0 !in s.tasks && target in s.cpus
    ensures WaitersOk(DoSpawn(s, t0, target)) && OneContext(DoSpawn(s, t0, target))
  {
  }

  /** Phase changes that leave every task, and every claim on a task, as it is. */
  ghost predicate Bookkeeping(p: Phase, q: Phase) {
    || ((p == Home || p.Blocking? || (p.Waking? && p.stage == Exchange))
        && (q == Home || q == Checked || q == Resched || (q.Waking? && q.stage == Exchange)))
    || (p.Waking? && p.stage != Exchange && q == p.(stage := Insert))
  }

  lemma PhaseTask(s: State, own: Owners, c: Cpu, p: Phase, t: Task)
    requires own.Keys == s.tasks.Keys && c in s.cpus && Bookkeeping(s.cpus[c].phase, p)
    requires t in s.tasks && TaskOk(s, own, t)
    ensures TaskOk(WithPhase(s, c, p), own, t)
  {
  }

  lemma PhaseCpu(s: State, own: Owners, c: Cpu, p: Phase, d: Cpu)
    requires own.Keys == s.tasks.Keys && c in s.cpus && s.cpus[c].current in s.tasks
    requires PhaseOk(WithPhase(s, c, p), own, c)
    requires d in s.cpus && CpuOk(s, own, d)
    ensures CpuOk(WithPhase(s, c, p), own, d)
  {
  }

  lemma PhaseCpus(s: State, own: Owners, c: Cpu, p: Phase)
    requires AllCpus(s, own) && HasCurrent(s, c) && PhaseOk(WithPhase(s, c, p), own, c)
    ensures AllCpus(WithPhase(s, c, p), own)
  {
    forall d | d in s.cpus ensures CpuOk(WithPhase(s, c, p), own, d) {
      assert CpuOk(s, own, d);
      PhaseCpu(s, own, c, p, d);
    }
  }

  lemma PhaseTasks(s: State, own: Owners, c: Cpu, p: Phase)
    requires AllTasks(s, own) && HasCurrent(s, c) && Bookkeeping(s.cpus[c].phase, p)
    ensures AllTasks(WithPhase(s, c, p), own)
  {
    forall t | t in s.tasks ensures TaskOk(WithPhase(s, c, p), own, t) {
      assert TaskOk(s, own, t);
      PhaseTask(s, own, c, p, t);
    }
  }

  lemma PhasePlaced(s: State, own: Owners, c: Cpu, p: Phase)
    requires Placed(s, own) && HasCurrent(s, c) && Bookkeeping(s.cpus[c].phase, p)
    requires PhaseOk(WithPhase(s, c, p), own, c)
    ensures Placed(WithPhase(s, c, p), own)
  {
    PhaseCpus(s, own, c, p);
    PhaseTasks(s, own, c, p);
  }

  // ---- Every step ----

  lemma AlarmPlaced(s: State, own: Owners, c: Cpu, deadline: nat)
    requires Placed(s, own) && MayBlock(s, c)
    ensures Placed(Alarm(s, c, deadline), own)
  {
    CorePlaced(s, own, Alarm(s, c, deadline));
  }

  lemma BeginPlaced(s: State, own: Owners, c: Cpu, w: Wait)
    requires Placed(s, own) && MayBlock(s, c)
    ensures Placed(WithWait(s, c, w), own)
  {
    CorePlaced(s, own, WithWait(s, c, w));
  }

  /** Block and take the queue lock; `s` already carries the alarm of a timed wait. */
  lemma LockedBlockPlaced(s: State, own: Owners, c: Cpu, w: Wait)
    requires Placed(s, own) && HasCurrent(s, c) && !IsIdle(s, s.cpus[c].current) && w.HasQueue()
    requires CurrentInfo(s, c).state == Running
    requires s.cpus[c].phase == Home || s.cpus[c].phase == Checked
    ensures Placed(Lock(Block(s, c, w, Blocking(w.wq)), w.wq, c), own[s.cpus[c].current := Off])
  {
    BlockPlaced(s, own, c, w, Blocking(w.wq));
    CorePlaced(Block(s, c, w, Blocking(w.wq)), own[s.cpus[c].current := Off],
               Lock(Block(s, c, w, Blocking(w.wq)), w.wq, c));
  }

  lemma PushWaiters(s: State, c: Cpu)
    requires WaitersOk(s) && HasCurrent(s, c) && s.cpus[c].phase.Blocking? && !IsIdle(s, s.cpus[c].current)
    ensures WaitersOk(DoPush(s, c)) && SameCore(WithPhase(s, c, Resched), DoPush(s, c))
  {
  }

  lemma PushPlaced(s: State, own: Owners, c: Cpu)
    requires Placed(s, own) && HasCurrent(s, c) && s.cpus[c].phase.Blocking?
    ensures Placed(DoPush(s, c), own)
  {
    Facts(s, own, c, s.cpus[c].current);
    PhasePlaced(s, own, c, Resched);
    PushWaiters(s, c);
    CorePlaced(WithPhase(s, c, Resched), own, DoPush(s, c));
  }

  lemma ReturnPlaced(s: State, own: Owners, c: Cpu)
    requires Placed(s, own) && HasCurrent(s, c)
    ensures Placed(DoReturn(s, c), own)
  {
    var s', info := DoReturn(s, c), CurrentInfo(s, c);
    forall w, i | w in s'.queues && 0 <= i < |s'.queues[w]|
      ensures s'.queues[w][i] in s'.tasks && !IsIdle(s', s'.queues[w][i])
    {
      assert multiset(s'.queues[w])[s'.queues[w][i]] > 0;
      assert s'.queues[w][i] in multiset(Queue(s, w));
    }
    CorePlaced(s, own, s');
  }

  function Pop(s: State, wq: QueueId, i: nat, c: Cpu): State
    requires i < |Queue(s, wq)| && Queue(s, wq)[i] in s.tasks
  {
    var q := Queue(s, wq);
    WithTask(s, q[i], s.tasks[q[i]].(inWaitQueue := false)).(
    queues := s.queues[wq := q[..i] + q[i+1..]], locks := s.locks[wq := c])
  }

  lemma PopPlaced(s: State, own: Owners, wq: QueueId, i: nat, c: Cpu)
    requires Placed(s, own) && i < |Queue(s, wq)| && Queue(s, wq)[i] in s.tasks
    ensures Placed(Pop(s, wq, i, c), own)
  {
    CorePlaced(s, own, Pop(s, wq, i, c));
  }

  lemma NotifyPlaced(s: State, own: Owners, c: Cpu, wq: QueueId, i: nat)
    requires Placed(s, own) && Enabled(s, Notify(c, wq, i))
    ensures Placed(DoNotify(s, c, wq, i), own)
  {
    var t := Queue(s, wq)[i];
    var s1 := Pop(s, wq, i, c);
    PopPlaced(s, own, wq, i, c);
    assert !IsIdle(s1, t);
    Facts(s1, own, c, t);
    PhasePlaced(s1, own, c, Waking(t, Exchange, Some(wq)));
  }

  lemma FirePlaced(s: State, own: Owners, c: Cpu, e: Event)
    requires Placed(s, own) && Enabled(s, Fire(c, e))
    ensures Placed(DoFire(s, c, e), own)
  {
    var s1 := s.(events := s.events - {e});
    CorePlaced(s, own, s1);
    if s.tasks[e.task].ticket == e.ticket {
      Facts(s1, own, c, e.task);
      PhasePlaced(s1, own, c, Waking(e.task, Exchange, None));
    }
  }

  lemma LostExchangePlaced(s: State, own: Owners, c: Cpu)
    requires Placed(s, own) && Enabled(s, WakeExchange(c))
    requires s.tasks[s.cpus[c].phase.task].state != Blocked
    ensures Placed(DoExchange(s, c), own)
  {
    Facts(s, own, c, s.cpus[c].phase.task);
    PhasePlaced(s, own, c, Home);
    CorePlaced(WithPhase(s, c, Home), own, DoExchange(s, c));
  }

  lemma SpinDonePlaced(s: State, own: Owners, c: Cpu)
    requires Placed(s, own) && Enabled(s, WakeSpinDone(c))
    ensures Placed(WithPhase(s, c, s.cpus[c].phase.(stage := Insert)), own)
  {
    Facts(s, own, c, s.cpus[c].phase.task);
    PhasePlaced(s, own, c, s.cpus[c].phase.(stage := Insert));
  }

  lemma CheckPlaced(s: State, own: Owners, c: Cpu)
    requires Placed(s, own) && MayBlock(s, c)
    ensures Placed(WithPhase(s, c, Checked), own)
  {
    Facts(s, own, c, s.cpus[c].current);
    PhasePlaced(s, own, c, Checked);
  }

  lemma ExitReschedPlaced(s: State, own: Owners, c: Cpu)
    requires Placed(s, own) && Enabled(s, ExitResched(c))
    ensures Placed(WithPhase(s, c, Resched), own)
  {
    Facts(s, own, c, s.cpus[c].current);
    PhasePlaced(s, own, c, Resched);
  }

  lemma CheckedMayBlock(s: State, own: Owners, c: Cpu)
    requires Placed(s, own) && Enabled(s, TimedUntilBlock(c))
    ensures !IsIdle(s, s.cpus[c].current) && CurrentInfo(s, c).state == Running
  {
    Facts(s, own, c, s.cpus[c].current);
  }

  lemma WaitStepPlaced(s: State, own: Owners, a: Action) returns (own': Owners)
    requires Placed(s, own) && Enabled(s, a) && Waits(a)
    ensures Placed(Next(s, a), own')
  {
    own' := own;
    match a
    case PlainBegin(c, wq) =>
      LockedBlockPlaced(s, own, c, Plain(wq));
      own' := own[s.cpus[c].current := Off];
    case UntilBegin(c, wq) => BeginPlaced(s, own, c, Until(wq));
    case UntilBlock(c) =>
      LockedBlockPlaced(s, own, c, CurrentInfo(s, c).wait);
      own' := own[s.cpus[c].current := Off];
    case TimedBegin(c, wq, deadline) =>
      AlarmPlaced(s, own, c, deadline);
      LockedBlockPlaced(Alarm(s, c, deadline), own, c, Timed(wq, deadline));
      own' := own[s.cpus[c].current := Off];
    case TimedUntilBegin(c, wq, deadline) =>
      AlarmPlaced(s, own, c, deadline);
      BeginPlaced(Alarm(s, c, deadline), own, c, TimedUntil(wq, deadline));
    case TimedUntilCheck(c) => CheckPlaced(s, own, c);
    case TimedUntilBlock(c) =>
      CheckedMayBlock(s, own, c);
      LockedBlockPlaced(s, own, c, CurrentInfo(s, c).wait);
      own' := own[s.cpus[c].current := Off];
    case SleepBegin(c, deadline) =>
      AlarmPlaced(s, own, c, deadline);
      BlockPlaced(Alarm(s, c, deadline), own, c, Sleep(deadline), Resched);
      own' := own[s.cpus[c].current := Off];
    case Push(c) => PushPlaced(s, own, c);
    case Return(c) => ReturnPlaced(s, own, c);
  }

  /** Every step of every CPU keeps the placement invariant. */
  lemma StepPlaced(s: State, own: Owners, a: Action) returns (own': Owners)
    requires Placed(s, own) && Enabled(s, a)
    ensures Placed(Next(s, a), own')
  {
    own' := own;
    if Waits(a) {
      own' := WaitStepPlaced(s, own, a);
      return;
    }
    match a
    case Tick => CorePlaced(s, own, Next(s, a));
    case Spawn(c, t, target) =>
      SpawnPlaced(s, own, t, target);
      own' := own[t := Queued(target)];
    case Yield(c) =>
      YieldPlaced(s, own, c);
      if IsIdle(s, s.cpus[c].current) { own' := own[s.cpus[c].current := Off]; }
    case PutPrev(c) =>
      PutPrevPlaced(s, own, c);
      own' := own[s.cpus[c].current := Queued(c)];
    case Pick(c, t) =>
      PickPlaced(s, own, c, t);
      own' := own[t := Picked(c)];
    case Switch(c) =>
      SwitchPlaced(s, own, c);
      own' := own[s.cpus[c].phase.next := OnCpu(c)];
    case Finish(c) => FinishPlaced(s, own, c);
    case Notify(c, wq, i) => NotifyPlaced(s, own, c, wq, i);
    case Fire(c, e) => FirePlaced(s, own, c, e);
    case WakeExchange(c) =>
      if s.tasks[s.cpus[c].phase.task].state == Blocked {
        ExchangePlaced(s, own, c);
        own' := own[s.cpus[c].phase.task := Handed(c)];
      } else {
        LostExchangePlaced(s, own, c);
      }
    case WakeSpinDone(c) => SpinDonePlaced(s, own, c);
    case WakeInsert(c, target) =>
      InsertPlaced(s, own, c, target);
      own' := own[s.cpus[c].phase.task := Queued(target)];
    case Exit(c) =>
      ExitPlaced(s, own, c);
      own' := own[s.cpus[c].current := Off];
    case ExitResched(c) => ExitReschedPlaced(s, own, c);
  }

  // ---- Whole runs ----

  function InitialOwners(s: State, boot: Boot): Owners {
    map t | t in s.tasks ::
      if t in boot.queued then Queued(boot.queued[t])
      else if t in boot.running then OnCpu(boot.running[t]) else Off
  }

  lemma InitCpuOk(s: State, boot: Boot, c: Cpu)
    requires Init(s, boot) && c in s.cpus
    ensures CpuOk(s, InitialOwners(s, boot), c)
  {
    assert InitTask(s, boot, s.cpus[c].current);
    assert InitialOwners(s, boot).Keys == s.tasks.Keys;
  }

  lemma InitTaskOk(s: State, boot: Boot, t: Task)
    requires Init(s, boot) && t in s.tasks
    ensures TaskOk(s, InitialOwners(s, boot), t)
  {
    assert InitTask(s, boot, t);
    assert InitialOwners(s, boot).Keys == s.tasks.Keys;
  }

  lemma InitPlaced(s: State, boot: Boot)
    requires Init(s, boot)
    ensures Placed(s, InitialOwners(s, boot))
  {
    var own := InitialOwners(s, boot);
    assert own.Keys == s.tasks.Keys;
    assert AllCpus(s, own) by {
      forall c | c in s.cpus ensures CpuOk(s, own, c) { InitCpuOk(s, boot, c); }
    }
    assert AllTasks(s, own) by {
      forall t | t in s.tasks ensures TaskOk(s, own, t) { InitTaskOk(s, boot, t); }
    }
  }

  lemma RunPlaced(trace: seq<State>, run: seq<Action>, boot: Boot, n: nat) returns (own: Owners)
    requires IsRun(trace, run, boot) && n < |trace|
    ensures Placed(trace[n], own)
  {
    InitPlaced(trace[0], boot);
    own := InitialOwners(trace[0], boot);
    for i := 0 to n
      invariant Placed(trace[i], own)
    {
      own := StepPlaced(trace[i], own, run[i]);
    }
  }

  ghost predicate CurrentOnce(s: State) {
    forall c, d | c in s.cpus && d in s.cpus && c != d :: s.cpus[c].current != s.cpus[d].current
  }

  ghost predicate ReadyOnce(s: State) {
    && (forall c, t | c in s.cpus && t in s.cpus[c].ready ::
          t in s.tasks && !IsIdle(s, t) && s.tasks[t].state == Ready && s.cpus[c].ready[t] == 1)
    && (forall c, d, t | c in s.cpus && d in s.cpus && t in s.cpus[c].ready && t in s.cpus[d].ready :: c == d)
  }

  ghost predicate ReadyNotCurrent(s: State) {
    forall c, d | c in s.cpus && d in s.cpus && s.cpus[d].current in s.cpus[c].ready ::
      c == d && (s.cpus[c].phase == Resched || s.cpus[c].phase.Switching?)
  }

  /** No task is current on two CPUs; a task in a ready queue is Ready, there once, in one queue only,
      and current only where it is just being put back. */
  ghost predicate QueuedOnce(s: State) {
    CurrentOnce(s) && ReadyOnce(s) && ReadyNotCurrent(s)
  }

  /** Each block ends in one exchange and one insertion, made after `on_cpu` is clear. */
  ghost predicate WokenOnce(s: State) {
    && (forall t | t in s.tasks ::
          var i := s.tasks[t];
          && i.blocks == i.wakes + (if i.state == Blocked then 1 else 0)
          && i.inserts <= i.wakes <= i.inserts + 1
          && (i.inserts < i.wakes ==> i.state == Ready))
    && (forall c | c in s.cpus && s.cpus[c].phase.Waking? && s.cpus[c].phase.stage == Insert ::
          s.cpus[c].phase.task in s.tasks && !s.tasks[s.cpus[c].phase.task].onCpu)
  }

  lemma ReadyFacts(s: State, own: Owners, c: Cpu, t: Task)
    requires Placed(s, own) && c in s.cpus && t in s.cpus[c].ready
    ensures t in s.tasks && own[t] == Queued(c) && !IsIdle(s, t) && s.tasks[t].state == Ready
    ensures s.cpus[c].ready[t] == 1
  {
    assert CpuOk(s, own, c);
    assert TaskOk(s, own, t);
  }

  lemma ReadyAndCurrent(s: State, own: Owners, c: Cpu, d: Cpu)
    requires Placed(s, own) && c in s.cpus && d in s.cpus && s.cpus[d].current in s.cpus[c].ready
    ensures c == d && (s.cpus[c].phase == Resched || s.cpus[c].phase.Switching?)
  {
    ReadyFacts(s, own, c, s.cpus[d].current);
    Facts(s, own, d, s.cpus[d].current);
  }

  lemma PlacedMeansReadyOnce(s: State, own: Owners)
    requires Placed(s, own)
    ensures ReadyOnce(s)
  {
    forall c, t | c in s.cpus && t in s.cpus[c].ready
      ensures t in s.tasks && !IsIdle(s, t) && s.tasks[t].state == Ready && s.cpus[c].ready[t] == 1
    {
      ReadyFacts(s, own, c, t);
    }
    forall c, d, t | c in s.cpus && d in s.cpus && t in s.cpus[c].ready && t in s.cpus[d].ready ensures c == d {
      ReadyFacts(s, own, c, t);
      ReadyFacts(s, own, d, t);
    }
  }

  lemma PlacedMeansReadyNotCurrent(s: State, own: Owners)
    requires Placed(s, own)
    ensures ReadyNotCurrent(s)
  {
    forall c, d | c in s.cpus && d in s.cpus && s.cpus[d].current in s.cpus[c].ready
      ensures c == d && (s.cpus[c].phase == Resched || s.cpus[c].phase.Switching?)
    {
      ReadyAndCurrent(s, own, c, d);
    }
  }

  lemma PlacedMeansQueuedOnce(s: State, own: Owners)
    requires Placed(s, own)
    ensures QueuedOnce(s)
  {
    PlacedMeansReadyOnce(s, own);
    PlacedMeansReadyNotCurrent(s, own);
  }

  lemma PlacedMeansWokenOnce(s: State, own: Owners)
    requires Placed(s, own)
    ensures WokenOnce(s)
  {
    forall c | c in s.cpus && s.cpus[c].phase.Waking? && s.cpus[c].phase.stage == Insert
      ensures s.cpus[c].phase.task in s.tasks && !s.tasks[s.cpus[c].phase.task].onCpu
    {
      assert CpuOk(s, own, c);
    }
    forall t | t in s.tasks
      ensures var i := s.tasks[t];
        && i.blocks == i.wakes + (if i.state == Blocked then 1 else 0)
        && i.inserts <= i.wakes <= i.inserts + 1
        && (i.inserts < i.wakes ==> i.state == Ready)
    {
      assert TaskOk(s, own, t);
    }
  }

  /** In every reachable state of every run, on any number of CPUs, each task is placed once. */
  lemma PlacementOverRuns(trace: seq<State>, run: seq<Action>, boot: Boot, n: nat)
    requires IsRun(trace, run, boot) && n < |trace|
    ensures QueuedOnce(trace[n]) && WokenOnce(trace[n])
  {
    var own := RunPlaced(trace, run, boot, n);
    PlacedMeansQueuedOnce(trace[n], own);
    PlacedMeansWokenOnce(trace[n], own);
  }

  // ---- The spin of put_task_with_state ends ----

  /** `on_cpu` is set only while some CPU uses the task's stack. */
  ghost predicate Claimed(s: State) {
    forall t | t in s.tasks && s.tasks[t].onCpu :: exists c | c in s.cpus :: Context(s, c, t)
  }

  lemma WaitKeepsContext(s: State, a: Action, c: Cpu, t: Task)
    requires Enabled(s, a) && Waits(a) && c in s.cpus && Context(s, c, t)
    ensures c in Next(s, a).cpus && Context(Next(s, a), c, t)
  {
  }

  lemma WakeKeepsContext(s: State, a: Action, c: Cpu, t: Task)
    requires Enabled(s, a) && Wakes(a) && c in s.cpus && Context(s, c, t)
    ensures c in Next(s, a).cpus && Context(Next(s, a), c, t)
  {
  }

  /** A step loses no context but the one whose `on_cpu` it clears. */
  lemma ContextKept(s: State, a: Action, c: Cpu, t: Task)
    requires Enabled(s, a) && c in s.cpus && Context(s, c, t)
    ensures c in Next(s, a).cpus
    ensures Context(Next(s, a), c, t) || (a == Finish(c) && s.cpus[c].phase.prev == t)
  {
    if Waits(a) {
      WaitKeepsContext(s, a, c, t);
    } else if Wakes(a) {
      WakeKeepsContext(s, a, c, t);
    } else {
      ScheduleKeepsContext(s, a, c, t);
    }
  }

  lemma ScheduleKeepsContext(s: State, a: Action, c: Cpu, t: Task)
    requires Enabled(s, a) && !Waits(a) && !Wakes(a) && c in s.cpus && Context(s, c, t)
    ensures c in Next(s, a).cpus
    ensures Context(Next(s, a), c, t) || (a == Finish(c) && s.cpus[c].phase.prev == t)
  {
  }

  lemma StepClaimed(s: State, a: Action)
    requires Claimed(s) && Enabled(s, a)
    ensures Claimed(Next(s, a))
  {
    var s' := Next(s, a);
    forall t | t in s'.tasks && s'.tasks[t].onCpu ensures exists c | c in s'.cpus :: Context(s', c, t) {
      if t in s.tasks && s.tasks[t].onCpu {
        var c :| c in s.cpus && Context(s, c, t);
        ContextKept(s, a, c, t);
      } else {
        SwitchSets(s, a, t);
        assert Context(s', a.c, t);
      }
    }
  }

  /** Only a switch sets `on_cpu`, for the task it switches to. */
  lemma SwitchSets(s: State, a: Action, t: Task)
    requires Enabled(s, a) && t in Next(s, a).tasks && Next(s, a).tasks[t].onCpu
    requires t in s.tasks ==> !s.tasks[t].onCpu
    ensures a.Switch? && a.c in Next(s, a).cpus && Next(s, a).cpus[a.c].current == t
  {
    if Waits(a) {
      WaitSetsNone(s, a, t);
    } else if Wakes(a) {
      WakeSetsNone(s, a, t);
    }
  }

  lemma WaitSetsNone(s: State, a: Action, t: Task)
    requires Enabled(s, a) && Waits(a) && t in Next(s, a).tasks && Next(s, a).tasks[t].onCpu
    ensures t in s.tasks && s.tasks[t].onCpu
  {
  }

  lemma WakeSetsNone(s: State, a: Action, t: Task)
    requires Enabled(s, a) && Wakes(a) && t in Next(s, a).tasks && Next(s, a).tasks[t].onCpu
    ensures t in s.tasks && s.tasks[t].onCpu
  {
  }

  /** Steps left before a CPU that is leaving a task clears its `on_cpu`. */
  function StepsToClear(p: Phase): nat {
    match p
    case Blocking(_) => 4
    case Resched => 3
    case Switching(_) => 2
    case Finishing(_) => 1
    case _ => 0
  }

  /** The next step of a CPU that is leaving a task; it waits for no other CPU. */
  function Leave(s: State, d: Cpu, pick: Task): Action
    requires d in s.cpus
  {
    match s.cpus[d].phase
    case Blocking(_) => Push(d)
    case Resched => Pick(d, pick)
    case Switching(_) => Switch(d)
    case _ => Finish(d)
  }

  predicate Leaving(s: State, d: Cpu, t: Task)
    requires d in s.cpus
  {
    var k := s.cpus[d];
    || (k.current == t && (k.phase.Blocking? || k.phase == Resched || (k.phase.Switching? && k.phase.next != t)))
    || k.phase == Finishing(t)
  }

  lemma HandedIsLeaving(s: State, own: Owners, c: Cpu, t: Task, d: Cpu)
    requires Placed(s, own) && c in s.cpus && d in s.cpus && t in s.tasks
    requires s.cpus[c].phase.Waking? && s.cpus[c].phase.stage != Exchange && s.cpus[c].phase.task == t
    requires Context(s, d, t)
    ensures d != c && Leaving(s, d, t)
    ensures s.cpus[d].phase.Switching? ==> s.cpus[d].phase.next in s.tasks
  {
    Facts(s, own, c, t);
    Facts(s, own, d, t);
  }

  /** The CPU has come closer to clearing the task's `on_cpu`, and clears it at the end only. */
  ghost predicate Closer(s: State, s': State, d: Cpu, t: Task)
    requires d in s.cpus
  {
    && d in s'.cpus && t in s'.tasks
    && StepsToClear(s'.cpus[d].phase) < StepsToClear(s.cpus[d].phase)
    && (s'.tasks[t].onCpu ==> Context(s', d, t))
    && (!s'.tasks[t].onCpu <==> s.cpus[d].phase == Finishing(t))
  }

  lemma PushCloser(s: State, d: Cpu, t: Task)
    requires d in s.cpus && t in s.tasks && s.tasks[t].onCpu && Leaving(s, d, t) && Enabled(s, Push(d))
    ensures Closer(s, DoPush(s, d), d, t)
  {
  }

  lemma PickCloser(s: State, d: Cpu, t: Task, pick: Task)
    requires d in s.cpus && t in s.tasks && s.tasks[t].onCpu && Leaving(s, d, t) && Enabled(s, Pick(d, pick))
    ensures Closer(s, DoPick(s, d, pick), d, t)
  {
  }

  lemma SwitchCloser(s: State, d: Cpu, t: Task)
    requires d in s.cpus && t in s.tasks && s.tasks[t].onCpu && Leaving(s, d, t) && Enabled(s, Switch(d))
    ensures Closer(s, DoSwitch(s, d), d, t)
  {
  }

  lemma FinishCloser(s: State, d: Cpu, t: Task)
    requires d in s.cpus && t in s.tasks && s.tasks[t].onCpu && Leaving(s, d, t) && Enabled(s, Finish(d))
    ensures Closer(s, DoFinish(s, d), d, t)
  {
  }

  lemma LeaveProgress(s: State, d: Cpu, t: Task, pick: Task)
    requires d in s.cpus && t in s.tasks && s.tasks[t].onCpu && Leaving(s, d, t)
    requires Enabled(s, Leave(s, d, pick))
    ensures Closer(s, Next(s, Leave(s, d, pick)), d, t)
  {
    match s.cpus[d].phase
    case Blocking(_) => PushCloser(s, d, t);
    case Resched => PickCloser(s, d, t, pick);
    case Switching(_) => SwitchCloser(s, d, t);
    case _ => FinishCloser(s, d, t);
  }

  /** A waker that spins on a task's `on_cpu` waits for another CPU that is already leaving the
      task, whose next step is enabled whatever else happens and brings it closer to the end. */
  lemma SpinEnds(s: State, own: Owners, c: Cpu, t: Task) returns (d: Cpu, pick: Task)
    requires Placed(s, own) && Claimed(s)
    requires c in s.cpus && s.cpus[c].phase.Waking? && s.cpus[c].phase.stage == Spin
    requires s.cpus[c].phase.task == t && t in s.tasks && s.tasks[t].onCpu
    ensures d in s.cpus && d != c && Context(s, d, t)
    ensures Enabled(s, Leave(s, d, pick)) && Closer(s, Next(s, Leave(s, d, pick)), d, t)
  {
    d :| d in s.cpus && Context(s, d, t);
    HandedIsLeaving(s, own, c, t, d);
    if s.cpus[d].ready == multiset{} {
      pick := s.cpus[d].idle;
    } else {
      pick :| pick in s.cpus[d].ready;
    }
    LeaveProgress(s, d, t, pick);
  }

  lemma RunClaimed(trace: seq<State>, run: seq<Action>, boot: Boot, n: nat)
    requires IsRun(trace, run, boot) && n < |trace|
    ensures Claimed(trace[n])
  {
    forall t | t in trace[0].tasks && trace[0].tasks[t].onCpu
      ensures exists c | c in trace[0].cpus :: Context(trace[0], c, t)
    {
      assert InitTask(trace[0], boot, t);
      assert Context(trace[0], boot.running[t], t);
    }
    for i := 0 to n
      invariant Claimed(trace[i])
    {
      StepClaimed(trace[i], run[i]);
    }
  }
}
