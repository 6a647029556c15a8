/**
 Lifetime of futex entries, as a step system over any number of guards. A lookup
 or an insertion is one step under the table's lock; dropping a guard is two: the
 decision to remove the entry, under the lock, and the release of the guard's own
 reference, after it.
 */
module FutexTable {

  type Key = nat
  type Entry = nat
  type Guard = nat

  /** A guard that has decided (`leaving`) still holds its reference until it is released. */
  datatype Held = Held(key: Key, entry: Entry, leaving: bool)

  datatype State = State(
    table: map<Key, Entry>,
    guards: map<Guard, Held>,
    waiters: map<Entry, nat>,     // tasks in the entry's wait queue
    made: set<Entry>)             // all entries there ever were

  datatype Action =
    | Get(g: Guard, key: Key)
    | Insert(g: Guard, key: Key, entry: Entry)      // get_or_insert
    | Decide(g: Guard)                              // drop, under the lock
    | Release(g: Guard)                             // the end of drop
    | Wait(g: Guard)
    | Wake(g: Guard)

  function Holders(s: State, e: Entry): set<Guard> {
    set g | g in s.guards && s.guards[g].entry == e
  }

  /** Arc::strong_count of an entry that is in the table. */
  function StrongCount(s: State, e: Entry): nat { |Holders(s, e)| + 1 }

  function Waiting(s: State, e: Entry): nat { if e in s.waiters then s.waiters[e] else 0 }

  /** The condition under which drop takes the entry out of the table. */
  predicate Unused(s: State, g: Guard)
    requires g in s.guards
  {
    var h := s.guards[g];
    h.key in s.table && s.table[h.key] == h.entry && StrongCount(s, h.entry) == 2 && Waiting(s, h.entry) == 0
  }

  predicate Enabled(s: State, a: Action) {
    match a
    case Get(g, key) => g !in s.guards
    case Insert(g, key, e) => g !in s.guards && e !in s.made
    case Decide(g) => g in s.guards && !s.guards[g].leaving
    case Release(g) => g in s.guards && s.guards[g].leaving
    case Wait(g) => g in s.guards && !s.guards[g].leaving
    case Wake(g) => g in s.guards && !s.guards[g].leaving && Waiting(s, s.guards[g].entry) > 0
  }

  function Next(s: State, a: Action): State
    requires Enabled(s, a)
  {
    match a
    case Get(g, key) => if key in s.table then s.(guards := s.guards[g := Held(key, s.table[key], false)]) else s
    case Insert(g, key, e) =>
      if key in s.table then s.(guards := s.guards[g := Held(key, s.table[key], false)])
      else s.(table := s.table[key := e], made := s.made + {e}, guards := s.guards[g := Held(key, e, false)])
    case Decide(g) =>
      s.(guards := s.guards[g := s.guards[g].(leaving := true)],
         table := if Unused(s, g) then s.table - {s.guards[g].key} else s.table)
    case Release(g) => s.(guards := s.guards - {g})
    case Wait(g) => s.(waiters := s.waiters[s.guards[g].entry := Waiting(s, s.guards[g].entry) + 1])
    case Wake(g) => s.(waiters := s.waiters[s.guards[g].entry := Waiting(s, s.guards[g].entry) - 1])
  }

  function Empty(): State { State(map[], map[], map[], {}) }

  ghost predicate IsRun(trace: seq<State>, run: seq<Action>) {
    && |trace| == |run| + 1 && trace[0] == Empty()
    && forall i :: 0 <= i < |run| ==> Enabled(trace[i], run[i]) && trace[i + 1] == Next(trace[i], run[i])
  }

  // ---- One entry per key, in the table while any guard lives ----

  predicate GuardOk(s: State, g: Guard)
    requires g in s.guards
  {
    var h := s.guards[g];
    h.entry in s.made && (!h.leaving ==> h.key in s.table && s.table[h.key] == h.entry)
  }

  /** Entries are not shared between keys, so a removed entry is gone for good. */
  ghost predicate Ok(s: State) {
    && (forall g {:trigger GuardOk(s, g)} | g in s.guards :: GuardOk(s, g))
    && (forall k | k in s.table :: s.table[k] in s.made)
    && (forall j, k | j in s.table && k in s.table && s.table[j] == s.table[k] :: j == k)
    && (forall e | e in s.waiters :: e in s.made)
  }

  /** A count of two means no other guard holds the entry. */
  lemma OnlyHolder(s: State, g: Guard, other: Guard)
    requires g in s.guards && other in s.guards && other != g && s.guards[other].entry == s.guards[g].entry
    ensures StrongCount(s, s.guards[g].entry) > 2
  {
    assert {g, other} <= Holders(s, s.guards[g].entry);
    var rest := Holders(s, s.guards[g].entry) - {g, other};
    assert Holders(s, s.guards[g].entry) == rest + {g, other};
  }

  lemma DecideOk(s: State, g: Guard)
    requires Ok(s) && Enabled(s, Decide(g))
    ensures Ok(Next(s, Decide(g)))
  {
    var s' := Next(s, Decide(g));
    assert GuardOk(s, g);
    forall o | o in s'.guards ensures GuardOk(s', o) {
      assert GuardOk(s, o);
      if o != g && s.guards[o].entry == s.guards[g].entry { OnlyHolder(s, g, o); }
    }
  }

  lemma StepOk(s: State, a: Action)
    requires Ok(s) && Enabled(s, a)
    ensures Ok(Next(s, a))
  {
    if a.Decide? {
      DecideOk(s, a.g);
    } else {
      var s' := Next(s, a);
      if a.g in s.guards { assert GuardOk(s, a.g); }
      forall o | o in s'.guards ensures GuardOk(s', o) {
        if o in s.guards { assert GuardOk(s, o); }
      }
    }
  }

  lemma RunOk(trace: seq<State>, run: seq<Action>, n: nat)
    requires IsRun(trace, run) && n < |trace|
    ensures Ok(trace[n])
  {
    for i := 0 to n
      invariant Ok(trace[i])
    {
      StepOk(trace[i], run[i]);
    }
  }

  /** In every reachable state all live guards of a key hold one entry, the one a lookup of that key
      would find: a waiter and its waker meet at the same queue. */
  lemma SameEntry(trace: seq<State>, run: seq<Action>, n: nat, g: Guard, o: Guard)
    requires IsRun(trace, run) && n < |trace| && g in trace[n].guards && o in trace[n].guards
    requires trace[n].guards[g].key == trace[n].guards[o].key && !trace[n].guards[g].leaving
             && !trace[n].guards[o].leaving
    ensures trace[n].guards[g].entry == trace[n].guards[o].entry
    ensures var key := trace[n].guards[g].key; key in trace[n].table && trace[n].table[key] == trace[n].guards[g].entry
  {
    RunOk(trace, run, n);
    assert GuardOk(trace[n], g) && GuardOk(trace[n], o);
  }

  // ---- When the table keeps nothing it does not need ----

  /** Every entry in the table has a live guard or a waiter. */
  ghost predicate Tight(s: State) {
    forall k | k in s.table :: Waiting(s, s.table[k]) > 0 || exists g :: LiveFor(s, g, s.table[k])
  }

  predicate LiveFor(s: State, g: Guard, e: Entry) { g in s.guards && !s.guards[g].leaving && s.guards[g].entry == e }

  /** The other guards of g's entry are all between deciding and releasing, there is at least one, and
      no task waits. */
  ghost predicate Overlapped(s: State, g: Guard)
    requires g in s.guards
  {
    var e := s.guards[g].entry;
    && Waiting(s, e) == 0
    && (exists o :: o in s.guards && o != g && s.guards[o].entry == e)
    && (forall o :: o != g ==> !LiveFor(s, o, e))
  }

  lemma LoneHolder(s: State, g: Guard)
    requires g in s.guards && forall o | o in s.guards && o != g :: s.guards[o].entry != s.guards[g].entry
    ensures StrongCount(s, s.guards[g].entry) == 2
  {
    assert Holders(s, s.guards[g].entry) == {g};
  }

  /** Deciding to drop a guard leaves an unused entry behind exactly when every other drop of it is half
      done. */
  lemma DecideTight(s: State, g: Guard)
    requires Ok(s) && Tight(s) && Enabled(s, Decide(g))
    ensures Tight(Next(s, Decide(g))) <==> !Overlapped(s, g)
  {
    assert GuardOk(s, g);
    if Overlapped(s, g) {
      OverlappedLeaks(s, g);
    } else {
      NoLeak(s, g);
    }
  }

  lemma OverlappedLeaks(s: State, g: Guard)
    requires Ok(s) && Enabled(s, Decide(g)) && Overlapped(s, g)
    ensures !Tight(Next(s, Decide(g)))
  {
    var s' := Next(s, Decide(g));
    var h := s.guards[g];
    assert GuardOk(s, g);
    var o :| o in s.guards && o != g && s.guards[o].entry == h.entry;
    OnlyHolder(s, g, o);
    assert h.key in s'.table && Waiting(s', h.entry) == 0;
    forall x ensures !LiveFor(s', x, h.entry) {
      assert x != g ==> !LiveFor(s, x, h.entry);
    }
  }

  lemma NoLeak(s: State, g: Guard)
    requires Ok(s) && Tight(s) && Enabled(s, Decide(g)) && !Overlapped(s, g)
    ensures Tight(Next(s, Decide(g)))
  {
    var s' := Next(s, Decide(g));
    var e := s.guards[g].entry;
    assert GuardOk(s, g);
    if forall o | o in s.guards && o != g :: s.guards[o].entry != e { LoneHolder(s, g); }
    forall k | k in s'.table ensures Waiting(s', s'.table[k]) > 0 || exists o :: LiveFor(s', o, s'.table[k]) {
      if o :| LiveFor(s, o, s.table[k]) && o != g {
        assert LiveFor(s', o, s'.table[k]);
      }
    }
  }

  ghost predicate Leaks(s: State, a: Action) { a.Decide? && a.g in s.guards && Overlapped(s, a.g) }

  lemma OtherTight(s: State, a: Action)
    requires Ok(s) && Tight(s) && Enabled(s, a) && !a.Decide?
    ensures Tight(Next(s, a))
  {
    var s' := Next(s, a);
    forall k | k in s'.table ensures Waiting(s', s'.table[k]) > 0 || exists g :: LiveFor(s', g, s'.table[k]) {
      if o :| k in s.table && LiveFor(s, o, s.table[k]) {
        assert LiveFor(s', o, s'.table[k]);
      } else if a.Insert? && k !in s.table {
        assert LiveFor(s', a.g, s'.table[k]);
      } else if a.Wake? {
        assert GuardOk(s, a.g) && LiveFor(s, a.g, s.guards[a.g].entry);
      }
    }
  }

  /** A step leaves an unused entry behind if and only if it is such a drop. */
  lemma StepTight(s: State, a: Action)
    requires Ok(s) && Tight(s) && Enabled(s, a)
    ensures Tight(Next(s, a)) <==> !Leaks(s, a)
  {
    if a.Decide? { DecideTight(s, a.g); } else { OtherTight(s, a); }
  }

  ghost predicate NoneLeak(trace: seq<State>, run: seq<Action>, n: nat)
    requires n <= |run| && |run| <= |trace|
  {
    forall i {:trigger Leaks(trace[i], run[i])} | 0 <= i < n :: !Leaks(trace[i], run[i])
  }

  /** Over a run: every entry is in use in every state up to the n-th exactly when no drop before it was
      overlapped. */
  lemma TightExactly(trace: seq<State>, run: seq<Action>, n: nat)
    requires IsRun(trace, run) && n < |trace|
    ensures (forall i | 0 <= i <= n :: Tight(trace[i])) <==> NoneLeak(trace, run, n)
  {
    if NoneLeak(trace, run, n) {
      for i := 0 to n
        invariant forall j | 0 <= j <= i :: Tight(trace[j])
      {
        assert !Leaks(trace[i], run[i]);
        RunOk(trace, run, i);
        StepTight(trace[i], run[i]);
      }
    } else {
      var i :| 0 <= i < n && Leaks(trace[i], run[i]);
      RunOk(trace, run, i);
      if Tight(trace[i]) {
        StepTight(trace[i], run[i]);
        assert !Tight(trace[i + 1]);
      }
    }
  }

  lemma AtRest(s: State)
    requires Tight(s) && s.guards == map[] && forall e | e in s.waiters :: s.waiters[e] == 0
    ensures s.table.Keys == {}
  {
    forall e, g ensures !LiveFor(s, g, e) {}
  }

  /** So without overlapped drops the table is empty once all guards and waiters are gone. */
  lemma EmptyAtRest(trace: seq<State>, run: seq<Action>, n: nat)
    requires IsRun(trace, run) && n < |trace| && NoneLeak(trace, run, n)
    requires trace[n].guards == map[] && forall e | e in trace[n].waiters :: trace[n].waiters[e] == 0
    ensures trace[n].table == map[]
  {
    TightExactly(trace, run, n);
    AtRest(trace[n]);
  }

  // ---- Guards and waiters over whole runs ----

  /** The step gives out guard g. */
  predicate GivesOut(s: State, a: Action, g: Guard) {
    (a.Insert? || (a.Get? && a.key in s.table)) && a.g == g
  }

  /** Guard g was given out in step b and not released before step n. */
  ghost predicate OutSince(trace: seq<State>, run: seq<Action>, b: nat, n: nat, g: Guard)
    requires |run| <= |trace|
  {
    b < n <= |run| && GivesOut(trace[b], run[b], g) && forall i | b < i < n :: run[i] != Release(g)
  }

  /** It is what was asked for, and is leaving exactly if its drop has begun. */
  ghost predicate AsGiven(s: State, run: seq<Action>, b: nat, n: nat, g: Guard)
    requires b < n <= |run| && (run[b].Insert? || run[b].Get?)
  {
    && g in s.guards && s.guards[g].key == run[b].key
    && (s.guards[g].leaving <==> exists i | b < i < n :: run[i] == Decide(g))
  }

  lemma GivenOut(s: State, a: Action, g: Guard)
    requires Enabled(s, a) && GivesOut(s, a, g)
    ensures var s' := Next(s, a);
            && g in s'.guards && s'.guards[g].key == a.key && !s'.guards[g].leaving
            && a.key in s'.table && s'.guards[g].entry == s'.table[a.key]
  {
  }

  lemma GuardStep(s: State, a: Action, g: Guard)
    requires Enabled(s, a) && !GivesOut(s, a, g)
    ensures g in Next(s, a).guards <==> g in s.guards && a != Release(g)
    ensures g in Next(s, a).guards ==>
              && Next(s, a).guards[g].key == s.guards[g].key && Next(s, a).guards[g].entry == s.guards[g].entry
              && (Next(s, a).guards[g].leaving <==> s.guards[g].leaving || a == Decide(g))
  {
  }

  lemma OutOn(trace: seq<State>, run: seq<Action>, b: nat, n: nat, g: Guard)
    requires IsRun(trace, run) && n < |run| && OutSince(trace, run, b, n, g) && AsGiven(trace[n], run, b, n, g)
    requires run[n] != Release(g)
    ensures OutSince(trace, run, b, n + 1, g) && AsGiven(trace[n + 1], run, b, n + 1, g)
  {
    GuardStep(trace[n], run[n], g);
    if i :| b < i < n && run[i] == Decide(g) { assert b < i < n + 1; }
  }

  /** In every run: a guard given out in step b and not released since is there, with the key it was asked
      for, leaving exactly if its drop has begun; and every guard that is there was given out so. */
  lemma {:induction false} GuardsExactly(trace: seq<State>, run: seq<Action>, n: nat, g: Guard)
    requires IsRun(trace, run) && n <= |run|
    ensures g in trace[n].guards <==> exists b :: OutSince(trace, run, b, n, g)
    ensures forall b | OutSince(trace, run, b, n, g) :: AsGiven(trace[n], run, b, n, g)
  {
    if n > 0 {
      var m := n - 1;
      GuardsExactly(trace, run, m, g);
      if GivesOut(trace[m], run[m], g) {
        GivenOut(trace[m], run[m], g);
        assert OutSince(trace, run, m, n, g);
      } else {
        GuardStep(trace[m], run[m], g);
        if b :| OutSince(trace, run, b, m, g) && g in trace[n].guards { OutOn(trace, run, b, m, g); }
      }
      forall b | OutSince(trace, run, b, n, g) ensures AsGiven(trace[n], run, b, n, g) {
        if b != m {
          assert OutSince(trace, run, b, m, g);
          OutOn(trace, run, b, m, g);
        }
      }
    }
  }

  /** How often tasks have begun to wait on an entry, and been woken from it. */
  ghost function Waits(trace: seq<State>, run: seq<Action>, n: nat, e: Entry): nat
    requires n <= |run| <= |trace|
  {
    if n == 0 then 0
    else Waits(trace, run, n - 1, e) + if run[n - 1].Wait? && On(trace[n - 1], run[n - 1].g, e) then 1 else 0
  }

  ghost function Wakes(trace: seq<State>, run: seq<Action>, n: nat, e: Entry): nat
    requires n <= |run| <= |trace|
  {
    if n == 0 then 0
    else Wakes(trace, run, n - 1, e) + if run[n - 1].Wake? && On(trace[n - 1], run[n - 1].g, e) then 1 else 0
  }

  predicate On(s: State, g: Guard, e: Entry) { g in s.guards && s.guards[g].entry == e }

  /** The tasks in an entry's queue are those that have begun to wait and not been woken. */
  lemma {:induction false} WaitersExactly(trace: seq<State>, run: seq<Action>, n: nat, e: Entry)
    requires IsRun(trace, run) && n <= |run|
    ensures Waiting(trace[n], e) + Wakes(trace, run, n, e) == Waits(trace, run, n, e)
  {
    if n > 0 { WaitersExactly(trace, run, n - 1, e); }
  }

  /** Two drops of one entry that overlap both count the other: the entry stays in the table with no
      guard and no waiter. */
  lemma OverlappingDrops() returns (trace: seq<State>, run: seq<Action>)
    ensures IsRun(trace, run) && |run| == 6
    ensures trace[6].guards == map[] && trace[6].waiters == map[] && trace[6].table == map[7 := 0] && !Tight(trace[6])
  {
    var s1 := Next(Empty(), Insert(0, 7, 0));
    var s2 := Next(s1, Get(1, 7));
    OnlyHolder(s2, 0, 1);
    var s3 := Next(s2, Decide(0));
    OnlyHolder(s3, 1, 0);
    var s4 := Next(s3, Decide(1));
    var s5 := Next(s4, Release(0));
    var s6 := Next(s5, Release(1));
    run := [Insert(0, 7, 0), Get(1, 7), Decide(0), Decide(1), Release(0), Release(1)];
    trace := [Empty(), s1, s2, s3, s4, s5, s6];
    assert 7 in s6.table;
  }
}
