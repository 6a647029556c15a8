/**
 The shutdown of the cache manager ends in every fair run. `notify_all` goes on
 while waiters queue themselves again, so a run may spend its steps on looks
 that fail (`Livelock`); fairness says that a run that can make progress again
 and again does so again and again. Progress is bounded by a rank.
 */
module CacheShutdown {
  import opened Options
  import opened CacheLifecycle

  /** All steps but those by which a waiter, or the idle worker, goes round its loop. */
  predicate Progress(s: State, a: Action)
    requires Enabled(s, a)
  {
    match a
    case NotifyOne(_, u) => Condition(s, s.pc[u])
    case LookActive(t) => Condition(s, s.pc[t])
    case LookWork(_) => s.lifecycle != Running
    case _ => !a.PushActive? && !a.PushWork? && !a.WakeWork? && !a.RouseOne?
  }

  ghost predicate CanProgress(s: State) {
    exists a :: Enabled(s, a) && Progress(s, a)
  }

  /** The flag is cleared and the manager not closed yet. */
  predicate UnderWay(s: State) { s.winner.Some? && s.lifecycle != Closed }

  // ---- The rank ----

  /** How far a thread is from the end of what it does, looks and loops aside. */
  function Rest(p: Pc): nat {
    match p
    case Out => 0
    case Taking => 1
    case Final(_) => 3
    case Publishing(_) => 5
    case Flushing(_) => 6
    case Drain(_, _) => 7
    case Work(_) => 8
    case Rousing(_) => 9
    case Won => 10
    case Loading(_) => 10
    case Backing(_) => 10
    case Holding(_) => 11
    case Checking(_) => 12
    case Adding(_) => 13
    case Notifying(next) =>
      (match next
       case Leave => 2
       case FinalNext => 4
       case DrainNext => 8
       case WorkNext => 9)
  }

  ghost function Total(pc: map<Thread, Pc>): nat {
    if pc == map[] then 0 else var t :| t in pc; Rest(pc[t]) + Total(pc - {t})
  }

  lemma {:induction false} TotalSplit(pc: map<Thread, Pc>, t: Thread)
    requires t in pc
    ensures Total(pc) == Rest(pc[t]) + Total(pc - {t})
  {
    var u :| u in pc && Total(pc) == Rest(pc[u]) + Total(pc - {u});
    if u != t {
      TotalSplit(pc - {u}, t);
      TotalSplit(pc - {t}, u);
      assert pc - {u} - {t} == pc - {t} - {u};
    }
  }

  lemma TotalMoves(pc: map<Thread, Pc>, m: Thread, p: Pc)
    requires m in pc
    ensures Total(pc[m := p]) + Rest(pc[m]) == Total(pc) + Rest(p)
  {
    TotalSplit(pc, m);
    TotalSplit(pc[m := p], m);
    assert pc[m := p] - {m} == pc - {m};
  }

  /** A worker can still be started. */
  function Spare(s: State): nat { if s.lifecycle == Running && !s.workerRunning then 9 else 0 }

  /** The thread's next look on active_wait will find its condition true. */
  predicate LooksReady(s: State, p: Pc) { (p.Drain? || p.Final?) && p.stage == Look && Condition(s, p) }

  function Delay(s: State, o: Option<Thread>): nat {
    if o.Some? && o.value in s.pc && LooksReady(s, s.pc[o.value]) then 0 else 1
  }

  ghost function Rank(s: State): nat {
    10 * (Total(s.pc) + Spare(s)) + Delay(s, s.winner) + Delay(s, s.worker)
  }

  /** Progress other than a wakeup brings the moved thread nearer to its end. */
  lemma RestFalls(s: State, a: Action)
    requires SidesOk(s) && !s.accepting && Enabled(s, a) && Progress(s, a) && !a.NotifyOne?
    ensures Moved(a) in s.pc && Rest(Goes(s, a)) + Spare(Shared(s, a)) < Rest(s.pc[Moved(a)]) + Spare(s)
  {
    assert ThreadOk(s, a.t);
  }

  /** The other steps leave everything but the stage of a loop as it is. */
  lemma LoopKeeps(s: State, a: Action)
    requires Enabled(s, a) && (a.NotifyOne? || !Progress(s, a))
    ensures Moved(a) in s.pc && Rest(Goes(s, a)) == Rest(s.pc[Moved(a)])
    ensures var s' := Shared(s, a);
            && s'.active == s.active && s'.result == s.result && s'.lifecycle == s.lifecycle
            && s'.workerRunning == s.workerRunning && s'.winner == s.winner && s'.worker == s.worker
    ensures LooksReady(s, s.pc[Moved(a)]) ==> LooksReady(s, Goes(s, a))
  {
  }

  lemma DelayKept(s: State, a: Action, o: Option<Thread>)
    requires Enabled(s, a) && (a.NotifyOne? || !Progress(s, a))
    ensures Delay(Next(s, a), o) <= Delay(s, o)
  {
    LoopKeeps(s, a);
  }

  /** A waiter woken with its condition true is the winner or the worker, and is about to look. */
  lemma WokenIsReady(s: State, t: Thread, u: Thread)
    requires SidesOk(s) && Enabled(s, NotifyOne(t, u)) && Condition(s, s.pc[u])
    ensures s.winner == Some(u) || s.worker == Some(u)
    ensures Delay(s, Some(u)) == 1 && Delay(Next(s, NotifyOne(t, u)), Some(u)) == 0
  {
    assert ThreadOk(s, u);
  }

  /** Once the flag is cleared no step raises the rank, and progress lowers it. */
  lemma StepRank(s: State, a: Action)
    requires SidesOk(s) && !s.accepting && Enabled(s, a)
    ensures Rank(Next(s, a)) <= Rank(s) && (Progress(s, a) ==> Rank(Next(s, a)) < Rank(s))
  {
    if Progress(s, a) && !a.NotifyOne? { ProgressRank(s, a); } else { LoopRank(s, a); }
  }

  lemma ProgressRank(s: State, a: Action)
    requires SidesOk(s) && !s.accepting && Enabled(s, a) && Progress(s, a) && !a.NotifyOne?
    ensures Rank(Next(s, a)) < Rank(s)
  {
    RestFalls(s, a);
    TotalMoves(s.pc, Moved(a), Goes(s, a));
  }

  lemma LoopRank(s: State, a: Action)
    requires SidesOk(s) && Enabled(s, a) && (a.NotifyOne? || !Progress(s, a))
    ensures Rank(Next(s, a)) <= Rank(s) && (Progress(s, a) ==> Rank(Next(s, a)) < Rank(s))
  {
    LoopKeeps(s, a);
    TotalMoves(s.pc, Moved(a), Goes(s, a));
    DelayKept(s, a, s.winner);
    DelayKept(s, a, s.worker);
    if Progress(s, a) { WokenIsReady(s, a.t, a.u); }
  }

  // ---- Progress is never far ----

  lemma CountedProgress(s: State)
    requires PermitsOk(s) && s.active > 0
    ensures CanProgress(s)
  {
    var t :| t in CountedSet(s.pc);
    match s.pc[t]
    case Checking(_) => assert Enabled(s, Check(t)) && Progress(s, Check(t));
    case Backing(_) => assert Enabled(s, Back(t)) && Progress(s, Back(t));
    case Holding(_) => assert Enabled(s, Drop(t)) && Progress(s, Drop(t));
  }

  /** With the lock free, a waiter whose condition is true looks or is woken. */
  lemma ReadyProgress(s: State, w: Thread)
    requires Inv(s) && s.activeLock == None && w in s.pc && (s.pc[w].Drain? || s.pc[w].Final?) && Condition(s, s.pc[w])
    ensures CanProgress(s)
  {
    assert ThreadOk(s, w);
    if s.pc[w].stage == Look {
      assert Enabled(s, LookActive(w)) && Progress(s, LookActive(w));
    } else {
      var t :| t in s.pc && WillNotify(s.pc[t]);
      if s.pc[t].Loading? {
        assert Enabled(s, LoadAgain(t)) && Progress(s, LoadAgain(t));
      } else {
        assert Enabled(s, NotifyOne(t, w)) && Progress(s, NotifyOne(t, w));
      }
    }
  }

  /** With the lock free and nobody asleep, a notifier is through. */
  lemma NotifierProgress(s: State, t: Thread)
    requires s.activeLock == None && t in s.pc && s.pc[t].Notifying?
    requires forall u | u in s.pc :: !AsleepOnActive(s.pc[u])
    ensures CanProgress(s)
  {
    assert Enabled(s, NotifyEnd(t)) && Progress(s, NotifyEnd(t));
  }

  /** The winner rouses the worker, which has yet to look up. */
  predicate RousesWorker(s: State) {
    && s.winner.Some? && s.winner.value in s.pc && s.pc[s.winner.value].Rousing?
    && s.workerRunning && s.worker.Some? && s.worker.value in s.pc
    && (s.pc[s.worker.value] == Work(Push) || s.pc[s.worker.value] == Work(Asleep))
  }

  /** The worker notifies the winner, which waits for the worker's result. */
  predicate NotifiesWinner(s: State) {
    && s.winner.Some? && s.winner.value in s.pc && s.pc[s.winner.value] == Final(Asleep)
    && s.workerRunning && s.worker.Some? && s.worker.value in s.pc && s.pc[s.worker.value] == Notifying(WorkNext)
  }

  lemma RousingShape(s: State)
    requires Inv(s) && LocksOk(s) && UnderWay(s) && s.pc[s.winner.value].Rousing?
    ensures CanProgress(s) || RousesWorker(s)
  {
    var w := s.winner.value;
    if s.workerLock.Some? {
      assert ThreadOk(s, s.workerLock.value);
    } else if u :| u in s.pc && s.pc[u] == Work(Asleep) {
      assert ThreadOk(s, u);
    } else {
      assert Enabled(s, RouseEnd(w)) && Progress(s, RouseEnd(w));
    }
  }

  lemma NotifyingProgress(s: State, w: Thread)
    requires Inv(s) && s.activeLock == None && w in s.pc && s.pc[w].Notifying? && ShutdownSide(s.pc[w])
    ensures CanProgress(s)
  {
    assert ThreadOk(s, w);
    if u :| u in s.pc && AsleepOnActive(s.pc[u]) {
      assert ThreadOk(s, u);
      if s.active > 0 { CountedProgress(s); } else { ReadyProgress(s, u); }
    } else {
      NotifierProgress(s, w);
    }
  }

  /** The winner waits for the result of a worker. */
  lemma AwaitsWorker(s: State)
    requires Inv(s) && LocksOk(s) && UnderWay(s) && s.activeLock == None && s.active == 0
    requires s.pc[s.winner.value].Final? && !s.result
    ensures CanProgress(s) || NotifiesWinner(s)
  {
    var w := s.winner.value;
    assert s.workerRunning && ThreadOk(s, s.worker.value) && ThreadOk(s, w);
    var k := s.worker.value;
    if s.pc[k].Drain? {
      ReadyProgress(s, k);
    } else if s.pc[k] == Notifying(WorkNext) {
      if u :| u in s.pc && AsleepOnActive(s.pc[u]) { assert ThreadOk(s, u); } else { NotifierProgress(s, k); }
    } else {
      WorkerProgress(s, k);
    }
  }

  lemma WorkLockHolder(s: State)
    requires SidesOk(s) && LocksOk(s)
    ensures s.workerLock.Some? ==> s.worker == s.workerLock && s.workerRunning && s.pc[s.workerLock.value] == Work(Push)
  {
    if s.workerLock.Some? { assert ThreadOk(s, s.workerLock.value); }
  }

  lemma ActiveLockHolder(s: State)
    requires SidesOk(s) && LocksOk(s) && s.activeLock.Some?
    ensures var t := s.activeLock.value;
            && (s.pc[t].Drain? || s.pc[t].Final?) && s.pc[t].stage == Push
            && (s.winner == Some(t) || (s.workerRunning && s.worker == Some(t)))
  {
    assert ThreadOk(s, s.activeLock.value);
  }

  lemma WorkerProgress(s: State, k: Thread)
    requires Inv(s) && LocksOk(s) && k in s.pc && WorkerSide(s.pc[k]) && !s.pc[k].Drain? && !s.pc[k].Notifying?
    requires s.lifecycle != Running && s.pc[k] != Work(Push) && s.pc[k] != Work(Asleep)
    ensures CanProgress(s)
  {
    assert ThreadOk(s, k);
    var p := s.pc[k];
    if p.Flushing? {
      assert Enabled(s, Flush(k)) && Progress(s, Flush(k));
    } else if p.Publishing? {
      assert Enabled(s, Publish(k)) && Progress(s, Publish(k));
    } else if p.Adding? {
      assert Enabled(s, Add(k)) && Progress(s, Add(k));
    } else if p.Loading? {
      assert Enabled(s, LoadAgain(k)) && Progress(s, LoadAgain(k));
    } else if p.Work? {
      OnlyLook(p.stage);
      WorkLockHolder(s);
      assert Enabled(s, LookWork(k)) && Progress(s, LookWork(k));
    } else {
      assert k in CountedSet(s.pc);
      CountedProgress(s);
    }
  }

  /** With the lock of active_wait free, only two shapes of a shutdown cannot make progress at once. */
  lemma StuckShape(s: State)
    requires Inv(s) && LocksOk(s) && UnderWay(s) && s.activeLock == None
    ensures CanProgress(s) || RousesWorker(s) || NotifiesWinner(s)
  {
    var w := s.winner.value;
    assert ThreadOk(s, w);
    match s.pc[w]
    case Won => assert Enabled(s, Close(w)) && Progress(s, Close(w));
    case Rousing(_) => RousingShape(s);
    case Taking => assert Enabled(s, Take(w)) && Progress(s, Take(w));
    case Flushing(_) => assert Enabled(s, Flush(w)) && Progress(s, Flush(w));
    case Publishing(_) => assert Enabled(s, Publish(w)) && Progress(s, Publish(w));
    case Notifying(_) => NotifyingProgress(s, w);
    case Drain(_, _) => if s.active > 0 { CountedProgress(s); } else { ReadyProgress(s, w); }
    case Final(_) =>
      if s.active > 0 {
        CountedProgress(s);
      } else if s.result {
        ReadyProgress(s, w);
      } else {
        AwaitsWorker(s);
      }
  }

  predicate Locked(s: State) { s.activeLock.Some? || s.workerLock.Some? }

  /** Waiters of active_wait are the winner and the worker, and no others. */
  lemma WaiterIs(s: State, u: Thread)
    requires SidesOk(s) && u in s.pc && (s.pc[u].Drain? || s.pc[u].Final?)
    ensures s.winner == Some(u) || (s.workerRunning && s.worker == Some(u))
  {
    assert ThreadOk(s, u);
  }

  /** A worker that pushes itself or sleeps while the manager closes is being roused. */
  lemma IdleIsRoused(s: State, t: Thread)
    requires SidesOk(s) && UnderWay(s) && t in s.pc && (s.pc[t] == Work(Push) || s.pc[t] == Work(Asleep))
    ensures CanProgress(s) || (RousesWorker(s) && s.worker == Some(t) && s.lifecycle == Closing)
  {
    assert ThreadOk(s, t) && ThreadOk(s, s.winner.value);
    if s.lifecycle == Running {
      assert Enabled(s, Close(s.winner.value)) && Progress(s, Close(s.winner.value));
    }
  }

  lemma LockerIsRoused(s: State)
    requires SidesOk(s) && LocksOk(s) && UnderWay(s)
    ensures s.workerLock.Some? ==> CanProgress(s) || RousesWorker(s)
  {
    WorkLockHolder(s);
    if s.workerLock.Some? { IdleIsRoused(s, s.workerLock.value); }
  }

  lemma PushActiveNears(s: State, t: Thread)
    requires Inv(s) && LocksOk(s) && UnderWay(s) && !CanProgress(s) && Enabled(s, PushActive(t))
    ensures Locked(s) && !Locked(Next(s, PushActive(t)))
  {
    assert ThreadOk(s, t);
    WaiterIs(s, t);
    LockerIsRoused(s);
  }

  lemma PushWorkNears(s: State, t: Thread)
    requires Inv(s) && LocksOk(s) && UnderWay(s) && !CanProgress(s) && Enabled(s, PushWork(t))
    ensures Locked(s) && !Locked(Next(s, PushWork(t)))
  {
    assert ThreadOk(s, t);
    IdleIsRoused(s, t);
    if s.activeLock.Some? { ActiveLockHolder(s); }
  }

  lemma RousedNears(s: State, a: Action)
    requires Inv(s) && LocksOk(s) && UnderWay(s) && !CanProgress(s) && Enabled(s, a) && (a.WakeWork? || a.RouseOne?)
    ensures CanProgress(Next(s, a))
  {
    var s', t := Next(s, a), Moved(a);
    IdleIsRoused(s, t);
    WorkLockHolder(s);
    assert Enabled(s', LookWork(t)) && Progress(s', LookWork(t));
  }

  lemma NotifyNears(s: State, t: Thread, u: Thread)
    requires Inv(s) && LocksOk(s) && UnderWay(s) && !CanProgress(s) && Enabled(s, NotifyOne(t, u))
    ensures CanProgress(Next(s, NotifyOne(t, u)))
  {
    var s' := Next(s, NotifyOne(t, u));
    StuckShape(s);
    WaiterIs(s, u);
    forall x | x in s'.pc ensures !AsleepOnActive(s'.pc[x]) {
      if x != u && AsleepOnActive(s.pc[x]) { WaiterIs(s, x); }
    }
    NotifierProgress(s', s.worker.value);
  }

  lemma NoLook(s: State, t: Thread)
    requires Inv(s) && LocksOk(s) && UnderWay(s) && Enabled(s, LookActive(t))
    ensures CanProgress(s)
  {
    StuckShape(s);
    WaiterIs(s, t);
  }

  /** If no progress can be made, one or two more steps of a loop lead to where it can. */
  lemma StuckStep(s: State, a: Action)
    requires Inv(s) && LocksOk(s) && UnderWay(s) && !CanProgress(s) && Enabled(s, a)
    ensures CanProgress(Next(s, a)) || (Locked(s) && !Locked(Next(s, a)))
  {
    LoopsOnly(s, a);
    if a.PushActive? {
      PushActiveNears(s, a.t);
    } else if a.PushWork? {
      PushWorkNears(s, a.t);
    } else if a.WakeWork? || a.RouseOne? {
      RousedNears(s, a);
    } else if a.NotifyOne? {
      NotifyNears(s, a.t, a.u);
    } else {
      NoLook(s, a.t);
    }
  }

  /** While the manager is not closing yet, its winner is about to close it. */
  lemma LoopsOnly(s: State, a: Action)
    requires SidesOk(s) && UnderWay(s) && Enabled(s, a)
    ensures CanProgress(s) || a.PushActive? || a.LookActive? || a.NotifyOne? || a.PushWork? || a.WakeWork?
            || a.RouseOne?
  {
    if a.LookWork? && s.lifecycle == Running {
      assert Enabled(s, Close(s.winner.value)) && Progress(s, Close(s.winner.value));
    } else if Progress(s, a) {
      assert CanProgress(s);
    }
  }

  // ---- Endless runs ----

  /** A run that goes on as long as a thread can step other than by the worker's timeout. */
  ghost predicate Endless(trace: nat -> State, run: nat -> Option<Action>) {
    Init(trace(0)) && forall i: nat :: Step(trace(i), run(i), trace(i + 1))
  }

  ghost predicate Step(s: State, a: Option<Action>, s': State) {
    match a
    case Some(b) => Enabled(s, b) && s' == Next(s, b)
    case None => !CanStep(s) && s' == s
  }

  ghost predicate ProgressAt(trace: nat -> State, run: nat -> Option<Action>, i: nat) {
    run(i).Some? && Enabled(trace(i), run(i).value) && Progress(trace(i), run(i).value)
  }

  ghost predicate CanAfter(trace: nat -> State, i: nat) {
    exists j: nat :: i <= j && CanProgress(trace(j))
  }

  ghost predicate ProgressAfter(trace: nat -> State, run: nat -> Option<Action>, i: nat) {
    exists j: nat :: i <= j && ProgressAt(trace, run, j)
  }

  /** A run that can make progress again and again does so again and again. */
  ghost predicate Fair(trace: nat -> State, run: nat -> Option<Action>) {
    (forall i: nat :: CanAfter(trace, i)) ==> forall i: nat :: ProgressAfter(trace, run, i)
  }

  lemma {:induction false} EndlessInv(trace: nat -> State, run: nat -> Option<Action>, n: nat)
    requires Endless(trace, run)
    ensures Inv(trace(n)) && LocksOk(trace(n))
  {
    if n == 0 {
      assert CountedSet(trace(0).pc) == {};
    } else {
      EndlessInv(trace, run, n - 1);
      var s := trace(n - 1);
      assert Step(s, run(n - 1), trace(n - 1 + 1));
      if run(n - 1).Some? {
        StepSides(s, run(n - 1).value);
        StepPermits(s, run(n - 1).value);
        StepNoMissedNotify(s, run(n - 1).value);
        StepLocks(s, run(n - 1).value);
      }
    }
  }

  /** A shutdown under way does not stop before it is over. */
  lemma Moves(trace: nat -> State, run: nat -> Option<Action>, n: nat)
    requires Endless(trace, run) && UnderWay(trace(n))
    ensures run(n).Some? && Enabled(trace(n), run(n).value) && trace(n + 1) == Next(trace(n), run(n).value)
  {
    assert Step(trace(n), run(n), trace(n + 1));
    EndlessInv(trace, run, n);
    WinnerSteps(trace(n), trace(n).winner.value);
  }

  lemma NearProgress(trace: nat -> State, run: nat -> Option<Action>, n: nat)
    requires Endless(trace, run) && UnderWay(trace(n)) && UnderWay(trace(n + 1))
    ensures CanAfter(trace, n)
  {
    EndlessInv(trace, run, n);
    EndlessInv(trace, run, n + 1);
    Moves(trace, run, n);
    Moves(trace, run, n + 1);
    if !CanProgress(trace(n)) {
      StuckStep(trace(n), run(n).value);
      if !CanProgress(trace(n + 1)) {
        StuckStep(trace(n + 1), run(n + 1).value);
        assert CanProgress(trace(n + 2));
      }
    }
  }

  lemma KeepsWinner(s: State, a: Action)
    requires SidesOk(s) && Enabled(s, a) && s.winner.Some?
    ensures Next(s, a).winner == s.winner
  {
    StepHistory(s, a);
  }

  /** If it never ends, it is under way for ever. */
  lemma {:induction false} StaysUnderWay(trace: nat -> State, run: nat -> Option<Action>, m: nat, n: nat)
    requires Endless(trace, run) && trace(m).winner.Some? && m <= n
    requires forall i: nat | m <= i :: trace(i).lifecycle != Closed
    ensures UnderWay(trace(n))
  {
    if m < n {
      var k := n - 1;
      StaysUnderWay(trace, run, m, k);
      EndlessInv(trace, run, k);
      Moves(trace, run, k);
      KeepsWinner(trace(k), run(k).value);
      assert trace(k + 1) == trace(n);
    }
  }

  lemma {:induction false} RankNeverRises(trace: nat -> State, run: nat -> Option<Action>, m: nat, n: nat)
    requires Endless(trace, run) && m <= n && forall i: nat | m <= i :: UnderWay(trace(i))
    ensures Rank(trace(n)) <= Rank(trace(m))
  {
    if m < n {
      var k := n - 1;
      RankNeverRises(trace, run, m, k);
      EndlessInv(trace, run, k);
      Moves(trace, run, k);
      StepRank(trace(k), run(k).value);
      assert trace(k + 1) == trace(n);
    }
  }

  /** A rank does not fall for ever. */
  lemma {:induction false} Descent(trace: nat -> State, run: nat -> Option<Action>, m: nat)
    requires Endless(trace, run) && forall i: nat | m <= i :: UnderWay(trace(i))
    requires forall i: nat :: ProgressAfter(trace, run, i)
    ensures false
    decreases Rank(trace(m))
  {
    assert ProgressAfter(trace, run, m);
    var j: nat :| m <= j && ProgressAt(trace, run, j);
    RankNeverRises(trace, run, m, j);
    EndlessInv(trace, run, j);
    Moves(trace, run, j);
    StepRank(trace(j), run(j).value);
    Descent(trace, run, j + 1);
  }

  /** In every fair run a shutdown, once it has cleared the flag, closes the manager. */
  lemma ShutdownEnds(trace: nat -> State, run: nat -> Option<Action>, m: nat)
    requires Endless(trace, run) && Fair(trace, run) && trace(m).winner.Some?
    ensures exists n: nat :: m <= n && trace(n).lifecycle == Closed
  {
    if forall n: nat | m <= n :: trace(n).lifecycle != Closed {
      forall n: nat | m <= n ensures UnderWay(trace(n)) { StaysUnderWay(trace, run, m, n); }
      forall i: nat ensures CanAfter(trace, i) {
        var k := if i < m then m else i;
        NearProgress(trace, run, k);
      }
      Descent(trace, run, m);
    }
  }

  // ---- Without fairness ----

  /** Thread 1 is the worker, thread 2 shuts down. */
  function Pair(worker: Pc, winner: Pc, accepting: bool, active: nat, closing: bool, lock: Option<Thread>): State {
    State(map[1 := worker, 2 := winner], accepting, active, if closing then Closing else Running, true, false, lock,
          None, if accepting then None else Some(2), Some(1), false, 0)
  }

  function Script(k: nat): State
    requires k <= 13
  {
    match k
    case 0 => State(map[1 := Out, 2 := Out], true, 0, Running, false, false, None, None, None, None, false, 0)
    case 1 => Pair(Work(Look), Out, true, 0, false, None)
    // The worker asks for a permit while the flag is cleared.
    case 2 => Pair(Adding(true), Out, true, 0, false, None)
    case 3 => Pair(Checking(true), Out, true, 1, false, None)
    case 4 => Pair(Checking(true), Won, false, 1, false, None)
    case 5 => Pair(Backing(true), Won, false, 1, false, None)
    case 6 => Pair(Backing(true), Rousing(false), false, 1, true, None)
    case 7 => Pair(Backing(true), Notifying(FinalNext), false, 1, true, None)
    // The winner waits for the worker's result.
    case 8 => Pair(Backing(true), Final(Look), false, 1, true, None)
    case 9 => Pair(Backing(true), Final(Push), false, 1, true, Some(2))
    case 10 => Pair(Backing(true), Final(Asleep), false, 1, true, None)
    // The worker notifies; the winner looks in vain and queues itself again.
    case 11 => Pair(Notifying(WorkNext), Final(Asleep), false, 0, true, None)
    case 12 => Pair(Notifying(WorkNext), Final(Look), false, 0, true, None)
    case _ => Pair(Notifying(WorkNext), Final(Push), false, 0, true, Some(2))
  }

  const ACTIONS: seq<Action> :=
    [StartWorker(1), Load(1), Add(1), Swap(2), Check(1), Close(2), RouseEnd(2), NotifyEnd(2), LookActive(2),
     PushActive(2), Back(1), NotifyOne(1, 2), LookActive(2), PushActive(2)]

  /** The last three steps are repeated for ever. */
  function Place(i: nat): (k: nat)
    ensures k <= 13
  {
    if i <= 13 then i else 11 + (i - 11) % 3
  }

  function Succ(k: nat): nat { if k >= 13 then 11 else k + 1 }

  lemma PlaceAfter(i: nat)
    ensures Place(i + 1) == Succ(Place(i))
  {
  }

  lemma ScriptStep(k: nat)
    requires k <= 13
    ensures Step(Script(k), Some(ACTIONS[k]), Script(Succ(k)))
  {
    if k <= 4 { StepsFirst(k); } else if k <= 9 { StepsThen(k); } else { StepsLast(k); }
  }

  lemma StepsFirst(k: nat)
    requires k <= 4
    ensures Step(Script(k), Some(ACTIONS[k]), Script(Succ(k)))
  {
  }

  lemma StepsThen(k: nat)
    requires 5 <= k <= 9
    ensures Step(Script(k), Some(ACTIONS[k]), Script(Succ(k)))
  {
  }

  lemma StepsLast(k: nat)
    requires 10 <= k <= 13
    ensures Step(Script(k), Some(ACTIONS[k]), Script(Succ(k)))
  {
  }

  /** The worker's notify_all, made for a permit it did not get, can go on for ever against a winner
      that waits for that worker: a run that stops at no point and never closes the manager. */
  lemma Livelock() returns (trace: nat -> State, run: nat -> Option<Action>)
    ensures Endless(trace, run) && trace(4).winner.Some? && forall n: nat :: trace(n).lifecycle != Closed
  {
    trace, run := (i: nat) => Script(Place(i)), (i: nat) => Some(ACTIONS[Place(i)]);
    forall i: nat ensures Step(trace(i), run(i), trace(i + 1)) {
      PlaceAfter(i);
      ScriptStep(Place(i));
    }
  }
}
