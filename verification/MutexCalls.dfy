/**
 The calls of the sleeping mutex: who holds it over whole runs, and what lock,
 try_lock and unlock do from their first step to their last when nothing comes
 between them.
 */
module MutexCalls {
  import opened Options
  import opened Traces
  import opened Queues
  import opened SleepMutex

  // ---- Who holds the mutex ----

  /** Task t took the mutex in step b and has not unlocked it before step n. */
  ghost predicate HoldsSince(run: seq<Action>, b: nat, n: nat, t: Task) {
    && b < n <= |run| && (run[b] == TryLock(t) || run[b] == Acquire(t))
    && forall i | b < i < n :: run[i] != Unlock(t)
  }

  lemma StepOwner(s: State, a: Action)
    requires Enabled(s, a)
    ensures Next(s, a).owner == if a.TryLock? || a.Acquire? then Some(a.t) else if a.Unlock? then None else s.owner
  {
  }

  lemma HoldsOn(run: seq<Action>, b: nat, n: nat, t: Task)
    requires n < |run| && HoldsSince(run, b, n, t) && run[n] != Unlock(t)
    ensures HoldsSince(run, b, n + 1, t)
  {
  }

  lemma HeldBefore(run: seq<Action>, b: nat, n: nat, t: Task)
    requires n < |run| && HoldsSince(run, b, n + 1, t) && b != n
    ensures HoldsSince(run, b, n, t) && run[n] != Unlock(t)
  {
  }

  /** In every run the owner word names a task exactly if that task has taken the mutex, by lock or
      try_lock, and not unlocked it since. */
  lemma {:induction false} OwnerExactly(trace: seq<State>, run: seq<Action>, n: nat, t: Task)
    requires IsRun(trace, run) && n <= |run|
    ensures trace[n].owner == Some(t) <==> exists b :: HoldsSince(run, b, n, t)
  {
    if n > 0 {
      var m := n - 1;
      OwnerExactly(trace, run, m, t);
      OwnedByOne(trace, run, m);
      StepOwner(trace[m], run[m]);
      if trace[n].owner == Some(t) {
        if run[m] == TryLock(t) || run[m] == Acquire(t) {
          assert HoldsSince(run, m, n, t);
        } else {
          var b :| HoldsSince(run, b, m, t);
          HoldsOn(run, b, m, t);
        }
      } else if b :| HoldsSince(run, b, n, t) {
        assert b != m;
        HeldBefore(run, b, m, t);
      }
    }
  }

  /** Only the owner unlocks, and only a free mutex is taken. */
  lemma OwnedByOne(trace: seq<State>, run: seq<Action>, m: nat)
    requires IsRun(trace, run) && m < |run|
    ensures run[m].Unlock? ==> trace[m].owner == Some(run[m].t)
    ensures run[m].TryLock? || run[m].Acquire? ==> trace[m].owner == None
  {
    for i := 0 to m
      invariant Exclusive(trace[i])
    {
      StepExclusive(trace[i], run[i]);
    }
  }

  // ---- Calls from end to end ----

  /** The actions can be taken one after another, and lead to s'. */
  ghost predicate Does(s: State, actions: seq<Action>, s': State) { Leads(s, actions, s', Goes) }

  /** try_lock on a free mutex. */
  lemma TryLockCall(s: State, t: Task)
    requires At(s, t, Away) && s.owner == None
    ensures Does(s, [TryLock(t)], s.(tasks := s.tasks[t := s.tasks[t].(pc := Held)], owner := Some(t)))
  {
    LeadsOne(s, TryLock(t), Next(s, TryLock(t)), Goes);
  }

  /** lock on a free mutex. */
  lemma LockCall(s: State, t: Task)
    requires At(s, t, Away) && s.owner == None
    ensures Does(s, [Lock(t), Acquire(t)], s.(tasks := s.tasks[t := s.tasks[t].(pc := Held)], owner := Some(t)))
  {
    var s1 := Next(s, Lock(t));
    var s2 := Next(s1, Acquire(t));
    LeadsTwo(s, Lock(t), s1, Acquire(t), s2, Goes);
    assert s2.tasks == s.tasks[t := s2.tasks[t]];
  }

  /** lock on a mutex that is held: the task is Blocked at the end of the queue. */
  lemma LockWaits(s: State, t: Task)
    requires At(s, t, Away) && s.owner.Some? && s.lock == None
    ensures Does(s, [Lock(t), Miss(t), Look(t), Push(t)], s.(
              tasks := s.tasks[t := s.tasks[t].(pc := Asleep, blocked := true, flag := true)], queue := s.queue + [t]))
  {
    var s1 := Next(s, Lock(t));
    var s2 := Next(s1, Miss(t));
    var s3 := Next(s2, Look(t));
    var s4 := Next(s3, Push(t));
    LeadsFour(s, Lock(t), s1, Miss(t), s2, Look(t), s3, Push(t), s4, Goes);
    assert s4.tasks == s.tasks[t := s4.tasks[t]];
  }

  /** unlock with somebody waiting: the mutex is free and the first in the queue awake. */
  lemma UnlockCall(s: State, t: Task)
    requires At(s, t, Held) && s.lock == None && s.queue != [] && s.queue[0] in s.tasks && s.queue[0] != t
    ensures var u := s.queue[0];
            Does(s, [Unlock(t), Notify(t)], s.(
              tasks := s.tasks[u := s.tasks[u].(blocked := false, flag := false)][t := s.tasks[t].(pc := Away)],
              owner := None, queue := s.queue[1..]))
  {
    var s1 := Next(s, Unlock(t));
    var s2 := Next(s1, Notify(t));
    LeadsTwo(s, Unlock(t), s1, Notify(t), s2, Goes);
    assert s2.tasks == s.tasks[s.queue[0] := s2.tasks[s.queue[0]]][t := s2.tasks[t]];
  }

  /** A woken task that finds the mutex free tries for it again, and leaves no entry of its own behind
      if its flag is still set. */
  lemma WokenTries(s: State, t: Task)
    requires At(s, t, Asleep) && !s.tasks[t].blocked && s.owner == None && s.lock == None
    ensures var s' := s.(tasks := s.tasks[t := s.tasks[t].(pc := Try, flag := false)]);
            Does(s, [Resume(t), Look(t)], if s.tasks[t].flag then s'.(queue := Without(s.queue, t)) else s')
  {
    var s1 := Next(s, Resume(t));
    var s2 := Next(s1, Look(t));
    LeadsTwo(s, Resume(t), s1, Look(t), s2, Goes);
    assert s2.tasks == s.tasks[t := s2.tasks[t]];
  }

  /** A wait in another queue, and the second round of one that found its condition false. */
  lemma OtherWaitCall(s: State, t: Task, w: QueueId, timed: bool)
    requires (At(s, t, Away) || At(s, t, Held)) && w !in s.locks
    ensures var i := s.tasks[t].(pc := Elsewhere(w, s.tasks[t].pc == Held), blocked := true, flag := true,
                                 timer := if timed then Armed else NoTimer);
            Does(s, [OtherWait(t, w, timed), OtherBlock(t)],
                 s.(tasks := s.tasks[t := i], others := s.others[w := Other(s, w) + [t]]))
  {
    var s1 := Next(s, OtherWait(t, w, timed));
    var s2 := Next(s1, OtherBlock(t));
    LeadsTwo(s, OtherWait(t, w, timed), s1, OtherBlock(t), s2, Goes);
    assert s2.tasks == s.tasks[t := s2.tasks[t]];
  }

  lemma OtherAgain(s: State, t: Task, w: QueueId, holds: bool)
    requires At(s, t, Elsewhere(w, holds)) && !s.tasks[t].blocked && s.tasks[t].timer != Fired && w !in s.locks
    ensures Does(s, [OtherCheck(t), OtherBlock(t)], s.(
              tasks := s.tasks[t := s.tasks[t].(blocked := true, flag := true)],
              others := s.others[w := Other(s, w) + [t]]))
  {
    var s1 := Next(s, OtherCheck(t));
    var s2 := Next(s1, OtherBlock(t));
    LeadsTwo(s, OtherCheck(t), s1, OtherBlock(t), s2, Goes);
    assert s2.tasks == s.tasks[t := s2.tasks[t]];
  }
}
