/**
 The completely fair scheduler: a ready queue ordered by virtual run time, tasks
 whose clocks advance at a rate set by their niceness, and the spread of those
 clocks over whole runs.
 */
module Cfs {
  import opened Options
  import opened Quotients

  const MAX_STEP: nat := 69

  predicate InNiceRange(nice: int) { -20 <= nice <= 19 }

  /** NICE2WEIGHT_POS and NICE2WEIGHT_NEG. */
  function WeightOf(nice: int): (w: nat)
    requires InNiceRange(nice)
    ensures w >= 15
  {
    match nice
    case 0 => 1024
    case 1 => 820
    case 2 => 655
    case 3 => 526
    case 4 => 423
    case 5 => 335
    case 6 => 272
    case 7 => 215
    case 8 => 172
    case 9 => 137
    case 10 => 110
    case 11 => 87
    case 12 => 70
    case 13 => 56
    case 14 => 45
    case 15 => 36
    case 16 => 29
    case 17 => 23
    case 18 => 18
    case 19 => 15
    case -1 => 1277
    case -2 => 1586
    case -3 => 1991
    case -4 => 2501
    case -5 => 3121
    case -6 => 3906
    case -7 => 4904
    case -8 => 6100
    case -9 => 7620
    case -10 => 9548
    case -11 => 11916
    case -12 => 14949
    case -13 => 18705
    case -14 => 23254
    case -15 => 29154
    case -16 => 36291
    case -17 => 46273
    case -18 => 56483
    case -19 => 71755
    case _ => 88761
  }

  /** What `delta` ticks add to the clock. */
  function Share(nice: int, delta: nat): nat
    requires InNiceRange(nice)
  {
    if nice == 0 then delta else delta * 1024 / WeightOf(nice)
  }

  lemma QuotientBelow(a: nat, w: nat, q: nat)
    requires w > 0 && a < (q + 1) * w
    ensures a / w <= q
  {
    var d := a / w - q;
    assert a / w * w <= a;
    assert a / w * w == q * w + d * w;
    assert d >= 1 ==> d * w >= w;
  }

  lemma QuotientGrows(a: nat, b: nat, w: nat)
    requires w >= 15 && b == a + 1024
    ensures a / w <= b / w <= a / w + 69
  {
    assert a < (a / w + 1) * w;
    assert (a / w + 69 + 1) * w == (a / w + 1) * w + 69 * w;
    QuotientBelow(b, w, a / w + 69);
    assert b < (b / w + 1) * w;
    QuotientBelow(a, w, b / w);
  }

  /** One tick moves a clock forward, by at most 69. */
  lemma TickBound(nice: int, delta: nat)
    requires InNiceRange(nice)
    ensures Share(nice, delta) <= Share(nice, delta + 1) <= Share(nice, delta) + MAX_STEP
  {
    if nice != 0 { QuotientGrows(delta * 1024, (delta + 1) * 1024, WeightOf(nice)); }
  }

  // ---- Niceness is a rate ----

  /** The weights of sched_prio_to_weight, from nice -20 to nice 19. */
  const WEIGHTS: seq<nat> :=
    [88761, 71755, 56483, 46273, 36291, 29154, 23254, 18705, 14949, 11916, 9548, 7620, 6100, 4904, 3906, 3121, 2501,
     1991, 1586, 1277, 1024, 820, 655, 526, 423, 335, 272, 215, 172, 137, 110, 87, 70, 56, 45, 36, 29, 23, 18, 15]

  lemma WeightIs(nice: int)
    requires InNiceRange(nice)
    ensures WeightOf(nice) == WEIGHTS[nice + 20]
  {
  }

  /** As many ticks as the weight move the clock by 1024, at every nice value. */
  lemma RateIs(nice: int)
    requires InNiceRange(nice)
    ensures Share(nice, WEIGHTS[nice + 20]) == 1024
  {
    var w := WEIGHTS[nice + 20];
    WeightIs(nice);
    Unique(w * 1024, w, 1024, 0);
  }

  lemma ShareBounds(nice: int, delta: nat)
    requires InNiceRange(nice)
    ensures Share(nice, delta) * WeightOf(nice) <= delta * 1024 < (Share(nice, delta) + 1) * WeightOf(nice)
  {
    if nice != 0 { Bounds(delta * 1024, WeightOf(nice)); }
  }

  lemma {:induction false} WeightsFall(nice: int, nicer: int)
    requires InNiceRange(nice) && InNiceRange(nicer) && nicer <= nice
    ensures WeightOf(nice) <= WeightOf(nicer)
    decreases nice - nicer
  {
    if nicer < nice {
      WeightsFall(nice, nicer + 1);
      WeightFalls(nicer);
    }
  }

  lemma WeightFalls(nice: int)
    requires InNiceRange(nice) && nice < 19
    ensures WeightOf(nice + 1) < WeightOf(nice)
  {
  }

  lemma Slower(a: nat, v: nat, w: nat, p: nat, q: nat)
    requires v <= w && a < (p + 1) * v && q * w <= a
    ensures q <= p
  {
    assert (p + 1) * v <= (p + 1) * w;
    assert q > p ==> q * w >= (p + 1) * w;
  }

  /** A higher nice value never has the slower clock. */
  lemma NicerIsSlower(nice: int, nicer: int, delta: nat)
    requires InNiceRange(nice) && InNiceRange(nicer) && nicer <= nice
    ensures Share(nicer, delta) <= Share(nice, delta)
  {
    WeightsFall(nice, nicer);
    ShareBounds(nice, delta);
    ShareBounds(nicer, delta);
    Slower(delta * 1024, WeightOf(nice), WeightOf(nicer), Share(nice, delta), Share(nicer, delta));
  }

  /** The ticks two tasks have had are in the ratio of their weights, up to what the clocks allow. */
  predicate Proportional(x: nat, v: nat, y: nat, w: nat, bound: nat) {
    1024 * (x * w - y * v) <= (bound + 1) * v * w
  }

  /** Clocks that are close mean shares in proportion to the weights. */
  lemma CloseMeansProportional(nice: int, x: nat, other: int, y: nat, bound: nat)
    requires InNiceRange(nice) && InNiceRange(other) && Share(nice, x) - Share(other, y) <= bound
    ensures Proportional(x, WeightOf(nice), y, WeightOf(other), bound)
  {
    ShareBounds(nice, x);
    ShareBounds(other, y);
    InProportion(x, WeightOf(nice), Share(nice, x), y, WeightOf(other), Share(other, y), bound);
  }

  lemma InProportion(x: nat, v: nat, p: nat, y: nat, w: nat, q: nat, bound: nat)
    requires x * 1024 < (p + 1) * v && q * w <= y * 1024 && p - q <= bound
    ensures Proportional(x, v, y, w, bound)
  {
    Times(x * 1024, (p + 1) * v, w);
    Times(q * w, y * 1024, v);
    Times(p + 1, bound + 1 + q, v * w);
    assert x * 1024 * w - y * 1024 * v == 1024 * (x * w - y * v);
    assert (p + 1) * v * w == (p + 1) * (v * w) && q * w * v == q * (v * w);
    assert (bound + 1 + q) * (v * w) == (bound + 1) * v * w + q * (v * w);
  }

  lemma Times(a: int, b: int, c: nat)
    requires a <= b
    ensures a * c <= b * c
  {
  }

  class CfsTask {
    var initial: int
    var delta: nat
    var nice: int
    var id: int

    constructor ()
      ensures initial == 0 && delta == 0 && nice == 0 && id == 0
    {
      initial, delta, nice, id := 0, 0, 0, 0;
    }

    predicate Ok()
      reads this
    {
      InNiceRange(nice)
    }

    function Vruntime(): int
      requires Ok()
      reads this
    {
      initial + Share(nice, delta)
    }

    /** The clock keeps its value and goes on at the new rate. */
    method SetPriority(prio: int)
      requires Ok() && InNiceRange(prio)
      modifies this
      ensures Ok() && nice == prio && delta == 0 && Vruntime() == old(Vruntime()) && id == old(id)
    {
      initial := Vruntime();
      delta := 0;
      nice := prio;
    }

    method Tick()
      requires Ok()
      modifies this`delta
      ensures Ok() && delta == old(delta) + 1 && old(Vruntime()) <= Vruntime() <= old(Vruntime()) + MAX_STEP
    {
      ghost var before := Vruntime();
      TickBound(nice, delta);
      delta := delta + 1;
      assert before <= Vruntime();
      assert Vruntime() <= before + MAX_STEP;
    }
  }

  type Key = (int, int)

  predicate Before(a: Key, b: Key) { a.0 < b.0 || (a.0 == b.0 && a.1 < b.1) }

  lemma {:induction false} FirstExists(keys: set<Key>)
    requires keys != {}
    ensures exists k | k in keys :: forall x | x in keys && x != k :: Before(k, x)
  {
    var y :| y in keys;
    var rest := keys - {y};
    if rest != {} {
      FirstExists(rest);
      var m :| m in rest && forall x | x in rest && x != m :: Before(m, x);
      var k := if Before(m, y) then m else y;
      assert forall x | x in keys && x != k :: Before(k, x) by {
        assert forall x | x in keys :: x == y || x in rest;
      }
    } else {
      assert keys == {y};
    }
  }

  /** The key of `first_key_value`. */
  function First(keys: set<Key>): (k: Key)
    requires keys != {}
    ensures k in keys && forall x | x in keys && x != k :: Before(k, x)
  {
    FirstExists(keys);
    var k :| k in keys && forall x | x in keys && x != k :: Before(k, x);
    k
  }

  class Scheduler {
    var ready: map<Key, CfsTask>
    var minVruntime: Option<int>
    var idPool: int

    /** Keys come from the pool, and the tasks are in a legal state. */
    ghost predicate Valid()
      reads this, ready.Values
    {
      forall k | k in ready :: k.1 < idPool && ready[k].Ok() && ready[k].id == k.1
    }

    /** Every queued task is filed under its present clock. */
    ghost predicate KeysMatch()
      requires Valid()
      reads this, ready.Values
    {
      forall k | k in ready :: k.0 == ready[k].Vruntime()
    }

    constructor ()
      ensures Valid() && KeysMatch() && ready == map[] && minVruntime == None && idPool == 0
    {
      ready, minVruntime, idPool := map[], None, 0;
    }

    /** `add_task`: the clock starts at the recorded minimum; the key is right exactly when the task
        brings no ticks of its own. */
    method AddTask(task: CfsTask)
      requires Valid() && task.Ok() && task !in ready.Values
      modifies this, task
      ensures Valid() && task.Ok()
      ensures task.nice == old(task.nice) && task.delta == old(task.delta) && idPool == old(idPool) + 1
      ensures task.initial == if old(minVruntime).Some? then old(minVruntime).value else 0
      ensures ready == old(ready)[(task.initial, old(idPool)) := task]
      ensures minVruntime == Some(First(ready.Keys).0)
      ensures KeysMatch() <==> old(KeysMatch()) && Share(task.nice, task.delta) == 0
    {
      if minVruntime == None { minVruntime := Some(0); }
      var vruntime, taskId := minVruntime.value, idPool;
      idPool := idPool + 1;
      task.initial := vruntime;
      task.id := taskId;
      ready := ready[(vruntime, taskId) := task];
      assert (vruntime, taskId) in ready;
      assert task.Vruntime() == vruntime + Share(task.nice, task.delta);
      assert forall k | k in old(ready) :: k in ready && ready[k] == old(ready)[k] != task;
      minVruntime := Some(First(ready.Keys).0);
    }

    /** `remove_task`: finds the task only under its present clock and id. */
    method RemoveTask(task: CfsTask) returns (r: Option<CfsTask>)
      requires Valid() && task.Ok()
      modifies this`ready, this`minVruntime
      ensures Valid() && idPool == old(idPool)
      ensures var k := (task.Vruntime(), task.id);
              && r == (if k in old(ready) then Some(old(ready)[k]) else None)
              && ready == old(ready) - {k}
      ensures r == None ==> minVruntime == old(minVruntime)
      ensures r.Some? ==> minVruntime == if ready == map[] then None else Some(First(ready.Keys).0)
      ensures old(KeysMatch()) ==> KeysMatch() && (task in old(ready).Values ==> r == Some(task))
    {
      var k := (task.Vruntime(), task.id);
      if k !in ready { return None; }
      r := Some(ready[k]);
      ready := ready - {k};
      minVruntime := if ready == map[] then None else Some(First(ready.Keys).0);
    }

    /** `pick_next_task`: the task with the least clock, the one queued first if there are several. */
    method PickNext() returns (r: Option<CfsTask>)
      requires Valid()
      modifies this`ready
      ensures Valid() && (r == None <==> old(ready) == map[])
      ensures r == None ==> ready == old(ready)
      ensures r.Some? ==>
                && old(ready).Keys != {} && ready == old(ready) - {First(old(ready).Keys)}
                && r.value == old(ready)[First(old(ready).Keys)]
      ensures old(KeysMatch()) ==> KeysMatch()
      ensures old(KeysMatch()) && r.Some? ==>
                && r.value !in ready.Values
                && (forall t | t in old(ready).Values :: t.Ok() && r.value.Vruntime() <= t.Vruntime())
                && (forall t | t in old(ready).Values && t != r.value && t.Vruntime() == r.value.Vruntime() ::
                      r.value.id < t.id)
    {
      if ready == map[] { return None; }
      var k := First(ready.Keys);
      r := Some(ready[k]);
      ready := ready - {k};
    }

    /** `put_prev_task` */
    method PutPrev(task: CfsTask)
      requires Valid() && task.Ok() && task !in ready.Values
      modifies this`ready, this`idPool, task`id
      ensures Valid() && idPool == old(idPool) + 1 && task.Ok() && task.Vruntime() == old(task.Vruntime())
      ensures ready == old(ready)[(task.Vruntime(), old(idPool)) := task]
      ensures old(KeysMatch()) ==> KeysMatch()
    {
      var taskId := idPool;
      idPool := idPool + 1;
      task.id := taskId;
      ready := ready[(task.Vruntime(), taskId) := task];
    }

    /** `task_tick`: asks for a reschedule when the running clock has passed the recorded minimum. */
    method TaskTick(current: CfsTask) returns (resched: bool)
      requires Valid() && current.Ok() && current !in ready.Values
      modifies current`delta
      ensures Valid() && current.Ok()
              && old(current.Vruntime()) <= current.Vruntime() <= old(current.Vruntime()) + MAX_STEP
      ensures current.delta == old(current.delta) + 1
      ensures resched <==> ready != map[] && (minVruntime == None || current.Vruntime() > minVruntime.value)
      ensures old(KeysMatch()) ==> KeysMatch()
    {
      current.Tick();
      if ready == map[] { return false; }
      return minVruntime == None || current.Vruntime() > minVruntime.value;
    }

    /** `set_priority`, on a queued or a running task. */
    method SetPriority(task: CfsTask, prio: int) returns (ok: bool)
      requires Valid() && task.Ok()
      modifies task
      ensures Valid() && task.Ok() && (ok <==> InNiceRange(prio)) && (ok ==> task.nice == prio)
      ensures task.Vruntime() == old(task.Vruntime())
      ensures old(KeysMatch()) ==> KeysMatch()
    {
      if !InNiceRange(prio) { return false; }
      task.SetPriority(prio);
      return true;
    }
  }

  // ---- Fairness over runs of a closed set of tasks ----

  /** What can happen while a task runs: a tick for it, or a change of anyone's priority. */
  datatype Event = Tick | Priority(task: CfsTask, prio: int)

  function Ticks(events: seq<Event>): nat {
    if events == [] then 0
    else Ticks(events[..|events| - 1]) + if events[|events| - 1].Tick? then 1 else 0
  }

  ghost predicate Legal(members: set<CfsTask>)
    reads members
  {
    forall t | t in members :: t.Ok()
  }

  /** No two clocks are further apart than `bound`. */
  ghost predicate Spread(members: set<CfsTask>, bound: nat)
    requires Legal(members)
    reads members
  {
    forall a, b | a in members && b in members :: a.Vruntime() - b.Vruntime() <= bound
  }

  ghost predicate Within(members: set<CfsTask>, lo: int, hi: int)
    requires Legal(members)
    reads members
  {
    forall t | t in members :: lo <= t.Vruntime() <= hi
  }

  ghost predicate TurnOk(members: set<CfsTask>, events: seq<Event>, d: nat) {
    Ticks(events) <= d && forall i | 0 <= i < |events| && events[i].Priority? :: events[i].task in members
  }

  /** All members are queued, each under its present clock. */
  ghost predicate Waiting(s: Scheduler, members: set<CfsTask>)
    reads s, s.ready.Values, members
  {
    s.Valid() && s.KeysMatch() && s.ready.Values == members && Legal(members)
  }

  /** All members but the running one are queued. */
  ghost predicate Running(s: Scheduler, members: set<CfsTask>, current: CfsTask)
    reads s, s.ready.Values, members
  {
    s.Valid() && s.KeysMatch() && current in members && s.ready.Values == members - {current} && Legal(members)
  }

  /** Nobody changes the task's own priority. */
  ghost predicate Undisturbed(events: seq<Event>, task: CfsTask) {
    forall i | 0 <= i < |events| && events[i].Priority? :: events[i].task != task
  }

  /** Nobody changes a priority. */
  ghost predicate Steady(events: seq<Event>) { forall i | 0 <= i < |events| :: events[i].Tick? }

  ghost predicate AllSteady(turns: seq<seq<Event>>) { forall i | 0 <= i < |turns| :: Steady(turns[i]) }

  /** Any two tasks have had ticks in proportion to their weights. */
  ghost predicate Fair(members: set<CfsTask>, bound: nat)
    requires Legal(members)
    reads members
  {
    forall a, b | a in members && b in members ::
      Proportional(a.delta, WEIGHTS[a.nice + 20], b.delta, WEIGHTS[b.nice + 20], bound)
  }

  /** The clocks show nothing but the ticks since the start. */
  ghost predicate FromZero(members: set<CfsTask>)
    reads members
  {
    forall t | t in members :: t.initial == 0
  }

  lemma SpreadMeansFair(members: set<CfsTask>, bound: nat)
    requires Legal(members) && FromZero(members) && Spread(members, bound)
    ensures Fair(members, bound)
  {
    forall a, b | a in members && b in members
      ensures Proportional(a.delta, WEIGHTS[a.nice + 20], b.delta, WEIGHTS[b.nice + 20], bound)
    {
      CloseMeansProportional(a.nice, a.delta, b.nice, b.delta, bound);
      WeightIs(a.nice);
      WeightIs(b.nice);
    }
  }

  method RunEvents(s: Scheduler, ghost members: set<CfsTask>, current: CfsTask, events: seq<Event>)
    requires Running(s, members, current)
    requires forall i | 0 <= i < |events| && events[i].Priority? :: events[i].task in members
    modifies members
    ensures Running(s, members, current)
    ensures old(current.Vruntime()) <= current.Vruntime() <= old(current.Vruntime()) + MAX_STEP * Ticks(events)
    ensures Undisturbed(events, current) ==> current.delta == old(current.delta) + Ticks(events)
    ensures forall t | t in members && t != current :: t.Vruntime() == old(t.Vruntime())
    ensures Steady(events) ==> forall t | t in members ::
              t.nice == old(t.nice) && t.initial == old(t.initial) && (t != current ==> t.delta == old(t.delta))
  {
    for i := 0 to |events|
      invariant Running(s, members, current)
      invariant old(current.Vruntime()) <= current.Vruntime() <= old(current.Vruntime()) + MAX_STEP * Ticks(events[..i])
      invariant Undisturbed(events, current) ==> current.delta == old(current.delta) + Ticks(events[..i])
      invariant forall t | t in members && t != current :: t.Vruntime() == old(t.Vruntime())
      invariant Steady(events) ==> forall t | t in members ::
                  t.nice == old(t.nice) && t.initial == old(t.initial) && (t != current ==> t.delta == old(t.delta))
    {
      assert events[..i + 1][..i] == events[..i];
      match events[i]
      case Tick => var resched := s.TaskTick(current);
      case Priority(task, prio) => var ok := s.SetPriority(task, prio);
    }
    assert events[..|events|] == events;
  }

  lemma ValuesPut(m: map<Key, CfsTask>, k: Key, t: CfsTask)
    requires k !in m
    ensures m[k := t].Values == m.Values + {t}
  {
    var n := m[k := t];
    forall x | x in m.Values + {t} ensures x in n.Values {
      if x == t {
        assert n[k] == x;
      } else {
        var j :| j in m && m[j] == x;
        assert n[j] == x;
      }
    }
  }

  lemma ValuesTake(m: map<Key, CfsTask>, k: Key)
    requires k in m && forall j | j in m && j != k :: m[j] != m[k]
    ensures (m - {k}).Values == m.Values - {m[k]}
  {
    var n := m - {k};
    forall x | x in m.Values - {m[k]} ensures x in n.Values {
      var j :| j in m && m[j] == x;
      assert n[j] == x;
    }
  }

  /** The least clock leaves the queue. */
  method Pick(s: Scheduler, ghost members: set<CfsTask>) returns (current: CfsTask)
    requires Waiting(s, members) && members != {}
    modifies s`ready
    ensures Running(s, members, current)
    ensures forall t | t in members :: current.Vruntime() <= t.Vruntime()
  {
    var picked := s.PickNext();
    current := picked.value;
    ValuesTake(old(s.ready), First(old(s.ready).Keys));
  }

  /** The running task goes back to the queue under its present clock. */
  method PutBack(s: Scheduler, ghost members: set<CfsTask>, current: CfsTask)
    requires Running(s, members, current)
    modifies s`ready, s`idPool, current`id
    ensures Waiting(s, members)
    ensures forall t | t in members :: t.Vruntime() == old(t.Vruntime())
  {
    ValuesPut(s.ready, (current.Vruntime(), s.idPool), current);
    s.PutPrev(current);
  }

  /** One turn: the least clock runs for at most d ticks, which are charged to it alone, and goes back
      to the queue. */
  method Turn(s: Scheduler, ghost members: set<CfsTask>, events: seq<Event>, ghost d: nat) returns (current: CfsTask)
    requires Waiting(s, members) && members != {} && TurnOk(members, events, d) && Spread(members, MAX_STEP * d)
    modifies s, members
    ensures Waiting(s, members) && Spread(members, MAX_STEP * d)
    ensures current in members
    ensures forall t | t in members :: old(t.Ok()) && old(current.Ok()) && old(current.Vruntime()) <= old(t.Vruntime())
    ensures old(current.Vruntime()) <= current.Vruntime() <= old(current.Vruntime()) + MAX_STEP * Ticks(events)
    ensures Undisturbed(events, current) ==> current.delta == old(current.delta) + Ticks(events)
    ensures forall t | t in members && t != current :: t.Vruntime() == old(t.Vruntime())
    ensures Steady(events) ==> forall t | t in members ::
              t.nice == old(t.nice) && t.initial == old(t.initial) && (t != current ==> t.delta == old(t.delta))
  {
    current := Pick(s, members);
    ghost var least := current.Vruntime();
    assert Within(members, least, least + MAX_STEP * d);
    RunEvents(s, members, current, events);
    assert MAX_STEP * Ticks(events) <= MAX_STEP * d;
    assert Within(members, least, least + MAX_STEP * d);
    PutBack(s, members, current);
    assert Within(members, least, least + MAX_STEP * d);
  }

  /** Any number of turns of at most d ticks each, with any priority changes: between turns the clocks
      are never more than 69 * d apart. */
  method Turns(s: Scheduler, ghost members: set<CfsTask>, turns: seq<seq<Event>>, ghost d: nat)
    requires Waiting(s, members) && members != {} && Spread(members, MAX_STEP * d)
    requires forall i | 0 <= i < |turns| :: TurnOk(members, turns[i], d)
    modifies s, members
    ensures Waiting(s, members) && Spread(members, MAX_STEP * d)
    ensures AllSteady(turns) ==> forall t | t in members :: t.nice == old(t.nice) && t.initial == old(t.initial)
  {
    for i := 0 to |turns|
      invariant Waiting(s, members) && Spread(members, MAX_STEP * d)
      invariant AllSteady(turns) ==> forall t | t in members :: t.nice == old(t.nice) && t.initial == old(t.initial)
    {
      var current := Turn(s, members, turns[i], d);
    }
  }

  ghost function All(tasks: seq<CfsTask>): set<CfsTask> { set t | t in tasks }

  lemma AllNext(tasks: seq<CfsTask>, i: nat)
    requires i < |tasks| && forall i, j | 0 <= i < j < |tasks| :: tasks[i] != tasks[j]
    ensures tasks[i] !in All(tasks[..i]) && All(tasks[..i + 1]) == All(tasks[..i]) + {tasks[i]}
  {
    assert tasks[..i + 1] == tasks[..i] + [tasks[i]];
  }

  /** Fresh tasks added to a new scheduler all start at zero. */
  method StartAll(tasks: seq<CfsTask>) returns (s: Scheduler)
    requires forall i | 0 <= i < |tasks| :: tasks[i].Ok() && tasks[i].delta == 0
    requires forall i, j | 0 <= i < j < |tasks| :: tasks[i] != tasks[j]
    modifies tasks
    ensures fresh(s) && Waiting(s, All(tasks)) && Within(All(tasks), 0, 0)
    ensures tasks != [] ==> s.minVruntime == Some(0)
    ensures FromZero(All(tasks)) && forall t | t in tasks :: t.nice == old(t.nice)
  {
    s := new Scheduler();
    ghost var added: set<CfsTask> := {};
    for i := 0 to |tasks|
      invariant fresh(s) && added == All(tasks[..i])
      invariant forall j | 0 <= j < |tasks| :: tasks[j].Ok() && tasks[j].delta == 0
      invariant FromZero(added) && forall t | t in tasks :: t.nice == old(t.nice)
      invariant Waiting(s, added) && Within(added, 0, 0)
      invariant s.minVruntime == if i == 0 then None else Some(0)
    {
      AllNext(tasks, i);
      AddFresh(s, added, tasks[i]);
      added := added + {tasks[i]};
    }
    assert tasks[..|tasks|] == tasks;
  }

  method AddFresh(s: Scheduler, ghost members: set<CfsTask>, task: CfsTask)
    requires Waiting(s, members) && Within(members, 0, 0) && task !in members && task.Ok() && task.delta == 0
    requires s.minVruntime == None || s.minVruntime == Some(0)
    modifies s, task
    ensures task.nice == old(task.nice)
    ensures task.Ok() && task.delta == 0 && Waiting(s, members + {task}) && Within(members + {task}, 0, 0)
            && s.minVruntime == Some(0)
    ensures s.ready.Values <= old(s.ready.Values) + {task} && task.initial == 0
  {
    ValuesPut(s.ready, (0, s.idPool), task);
    s.AddTask(task);
  }

  /** The whole run: fresh tasks, then any turns of at most d ticks. */
  method FairRun(tasks: seq<CfsTask>, turns: seq<seq<Event>>, ghost d: nat) returns (s: Scheduler)
    requires |tasks| > 0 && forall i | 0 <= i < |tasks| :: tasks[i].Ok() && tasks[i].delta == 0
    requires forall i, j | 0 <= i < j < |tasks| :: tasks[i] != tasks[j]
    requires forall i | 0 <= i < |turns| :: TurnOk(All(tasks), turns[i], d)
    modifies tasks
    ensures fresh(s) && Waiting(s, All(tasks)) && Spread(All(tasks), MAX_STEP * d)
    ensures AllSteady(turns) ==> Fair(All(tasks), MAX_STEP * d) && forall t | t in tasks :: t.nice == old(t.nice)
  {
    s := StartAll(tasks);
    assert tasks[0] in All(tasks);
    Turns(s, All(tasks), turns, d);
    if AllSteady(turns) { SpreadMeansFair(All(tasks), MAX_STEP * d); }
  }

  // ---- Turns that end when a reschedule is asked for ----

  /** No clock is behind the recorded minimum. */
  ghost predicate Floor(s: Scheduler, members: set<CfsTask>)
    requires Legal(members)
    reads s, members
  {
    s.minVruntime.Some? && forall t | t in members :: s.minVruntime.value <= t.Vruntime()
  }

  /** The events up to the first tick that asks for a reschedule. While somebody waits, the clock moves
      by one tick's share, and only in a turn that ends so. */
  method RunUntilAsked(s: Scheduler, ghost members: set<CfsTask>, current: CfsTask, events: seq<Event>)
    returns (asked: bool)
    requires Running(s, members, current) && Floor(s, members)
    requires forall i | 0 <= i < |events| && events[i].Priority? :: events[i].task in members
    modifies members
    ensures Running(s, members, current) && Floor(s, members)
    ensures forall t | t in members && t != current :: t.Vruntime() == old(t.Vruntime())
    ensures Steady(events) ==> forall t | t in members ::
              t.nice == old(t.nice) && t.initial == old(t.initial) && (t != current ==> t.delta == old(t.delta))
    ensures asked ==> s.ready != map[] && current.Vruntime() > s.minVruntime.value
    ensures s.ready != map[] ==>
              && old(current.Vruntime()) <= current.Vruntime() <= old(current.Vruntime()) + MAX_STEP
              && (!asked ==> current.Vruntime() == old(current.Vruntime()))
  {
    for i := 0 to |events|
      invariant Running(s, members, current) && Floor(s, members)
      invariant forall t | t in members && t != current :: t.Vruntime() == old(t.Vruntime())
      invariant Steady(events) ==> forall t | t in members ::
                  t.nice == old(t.nice) && t.initial == old(t.initial) && (t != current ==> t.delta == old(t.delta))
      invariant s.ready != map[] ==> current.Vruntime() == old(current.Vruntime())
    {
      match events[i]
      case Tick =>
        asked := s.TaskTick(current);
        if asked { return; }
      case Priority(task, prio) => var ok := s.SetPriority(task, prio);
    }
    return false;
  }

  lemma NobodyWaits(ready: map<Key, CfsTask>, members: set<CfsTask>, current: CfsTask)
    requires ready == map[] && current in members && ready.Values == members - {current}
    ensures members == {current}
  {
    assert ready.Values == {};
    assert members == (members - {current}) + {current};
  }

  /** If the least clock runs so, no two clocks get further apart than one tick's share. */
  method PromptPart(s: Scheduler, ghost members: set<CfsTask>, current: CfsTask, events: seq<Event>)
    requires Running(s, members, current) && Floor(s, members)
    requires Within(members, current.Vruntime(), current.Vruntime() + MAX_STEP)
    requires forall i | 0 <= i < |events| && events[i].Priority? :: events[i].task in members
    modifies members
    ensures Running(s, members, current) && Floor(s, members) && Spread(members, MAX_STEP)
    ensures Steady(events) ==> forall t | t in members :: t.nice == old(t.nice) && t.initial == old(t.initial)
  {
    ghost var least := current.Vruntime();
    var asked := RunUntilAsked(s, members, current, events);
    if s.ready == map[] {
      NobodyWaits(s.ready, members, current);
    } else {
      assert Within(members, least, least + MAX_STEP);
    }
  }

  /** A turn of any number of ticks that ends when a reschedule is asked for, or before. */
  method PromptTurn(s: Scheduler, ghost members: set<CfsTask>, events: seq<Event>)
    requires Waiting(s, members) && members != {} && Floor(s, members) && Spread(members, MAX_STEP)
    requires forall i | 0 <= i < |events| && events[i].Priority? :: events[i].task in members
    modifies s`ready, s`idPool, members
    ensures Waiting(s, members) && Floor(s, members) && Spread(members, MAX_STEP)
    ensures Steady(events) ==> forall t | t in members :: t.nice == old(t.nice) && t.initial == old(t.initial)
  {
    var current := Pick(s, members);
    assert Within(members, current.Vruntime(), current.Vruntime() + MAX_STEP);
    PromptPart(s, members, current, events);
    PutBack(s, members, current);
  }

  method PromptTurns(s: Scheduler, ghost members: set<CfsTask>, turns: seq<seq<Event>>)
    requires Waiting(s, members) && members != {} && Floor(s, members) && Spread(members, MAX_STEP)
    requires forall i, j | 0 <= i < |turns| && 0 <= j < |turns[i]| && turns[i][j].Priority? ::
               turns[i][j].task in members
    modifies s`ready, s`idPool, members
    ensures Waiting(s, members) && Floor(s, members) && Spread(members, MAX_STEP)
    ensures AllSteady(turns) ==> forall t | t in members :: t.nice == old(t.nice) && t.initial == old(t.initial)
  {
    for i := 0 to |turns|
      invariant Waiting(s, members) && Floor(s, members) && Spread(members, MAX_STEP)
      invariant AllSteady(turns) ==> forall t | t in members :: t.nice == old(t.nice) && t.initial == old(t.initial)
    {
      PromptTurn(s, members, turns[i]);
    }
  }

  /** Turns that end when a reschedule is asked for keep the clocks of fresh tasks within one tick's
      share of each other, however many ticks there are and whatever priorities are set. */
  method PromptRun(tasks: seq<CfsTask>, turns: seq<seq<Event>>) returns (s: Scheduler)
    requires |tasks| > 0 && forall i | 0 <= i < |tasks| :: tasks[i].Ok() && tasks[i].delta == 0
    requires forall i, j | 0 <= i < j < |tasks| :: tasks[i] != tasks[j]
    requires forall i, j | 0 <= i < |turns| && 0 <= j < |turns[i]| && turns[i][j].Priority? :: turns[i][j].task in tasks
    modifies tasks
    ensures fresh(s) && Waiting(s, All(tasks)) && Spread(All(tasks), MAX_STEP) && s.minVruntime == Some(0)
    ensures AllSteady(turns) ==> Fair(All(tasks), MAX_STEP) && forall t | t in tasks :: t.nice == old(t.nice)
  {
    s := StartAll(tasks);
    assert tasks[0] in All(tasks);
    PromptTurns(s, All(tasks), turns);
    if AllSteady(turns) { SpreadMeansFair(All(tasks), MAX_STEP); }
  }

  // ---- A task that joins late ----

  /** A fresh task that joins keeps the bound exactly when the recorded minimum is near every clock. */
  method Join(s: Scheduler, ghost members: set<CfsTask>, task: CfsTask, ghost least: int, ghost bound: nat)
    requires Waiting(s, members) && task !in members && task.Ok() && task.delta == 0 && s.minVruntime == Some(least)
    modifies s, task
    ensures Waiting(s, members + {task}) && task.Vruntime() == least
    ensures forall t | t in members :: t.Vruntime() == old(t.Vruntime())
    ensures Spread(members + {task}, bound) <==>
              old(Spread(members, bound)) && Within(members, least - bound, least + bound)
  {
    ValuesPut(s.ready, (least, s.idPool), task);
    s.AddTask(task);
    assert task.Vruntime() == least;
    assert forall t | t in members :: t.Vruntime() == old(t.Vruntime());
  }

  /** The only task takes a turn of one tick; the recorded minimum stays. */
  method TurnOfOne(s: Scheduler, a: CfsTask)
    requires Waiting(s, {a}) && a.nice == 0
    modifies s`ready, s`idPool, a
    ensures Waiting(s, {a}) && a.nice == 0 && a.Vruntime() == old(a.Vruntime()) + 1
  {
    var picked := Pick(s, {a});
    var resched := s.TaskTick(picked);
    PutBack(s, {a}, picked);
  }

  method Alone(n: nat) returns (s: Scheduler, a: CfsTask)
    ensures fresh(s) && fresh(a) && Waiting(s, {a}) && s.minVruntime == Some(0) && a.nice == 0 && a.Vruntime() == n
  {
    a := new CfsTask();
    s := new Scheduler();
    AddFresh(s, {}, a);
    for i := 0 to n
      invariant fresh(s) && fresh(a) && Waiting(s, {a}) && s.minVruntime == Some(0) && a.nice == 0 && a.Vruntime() == i
    {
      TurnOfOne(s, a);
    }
  }

  /** The recorded minimum does not follow the clocks: after n turns of one tick, a second fresh task
      starts n behind the first. */
  method LateStart(n: nat) returns (s: Scheduler, a: CfsTask, b: CfsTask)
    ensures fresh(s) && fresh(a) && fresh(b) && Waiting(s, {a, b}) && a.Vruntime() - b.Vruntime() == n
  {
    s, a := Alone(n);
    b := new CfsTask();
    Join(s, {a}, b, 0, n);
    assert {a} + {b} == {a, b};
  }
}
