/**
 A protection transaction: a sequence of permission changes on the leaves of one
 address space, recorded in a journal and undone in reverse unless committed.
 */
module Protection {
  import opened Options
  import opened PageTables
  import opened FrameOwnership

  datatype Change = Change(address: nat, before: Flags, after: Flags)

  function SetFlags(t: Table, a: nat, flags: Flags): Table
    requires a in t
  {
    t[a := t[a].(flags := flags)]
  }

  // ---- Changing flags moves no reference ----

  lemma OwnersReflagged(spaces: Spaces, id: nat, a: nat, flags: Flags, p: nat)
    requires id in spaces && a in spaces[id].table && KindOf(flags) == KindOf(spaces[id].table[a].flags)
    ensures Owners(SetTable(spaces, id, SetFlags(spaces[id].table, a, flags)), p) == Owners(spaces, p)
  {
    var o, o' := Owners(spaces, p), Owners(SetTable(spaces, id, SetFlags(spaces[id].table, a, flags)), p);
    forall i: nat, b: nat ensures (i, b) in o' <==> (i, b) in o {
      InOwners(spaces, p, i, b);
      InOwners(SetTable(spaces, id, SetFlags(spaces[id].table, a, flags)), p, i, b);
    }
  }

  lemma ReflaggedOk(t: Table, a: nat, flags: Flags)
    requires TableOk(t) && a in t
    ensures TableOk(SetFlags(t, a, flags))
  {
    var u := SetFlags(t, a, flags);
    forall b | b in u ensures Placed(u, b) { assert Placed(t, b); }
    forall b, c | b in u && c in u ensures Apart(u, b, c) { assert Apart(t, b, c); }
  }

  lemma Reflagged(counts: map<nat, nat>, free: set<nat>, loaned: set<nat>, handles: multiset<nat>, spaces: Spaces,
                  id: nat, a: nat, flags: Flags)
    requires Owned(counts, free, loaned, handles, spaces) && id in spaces && a in spaces[id].table
    requires KindOf(flags) == KindOf(spaces[id].table[a].flags)
    ensures Owned(counts, free, loaned, handles, SetTable(spaces, id, SetFlags(spaces[id].table, a, flags)))
  {
    var t := spaces[id].table;
    var spaces' := SetTable(spaces, id, SetFlags(t, a, flags));
    assert SpaceOk(spaces[id], counts) && AllocLeafOk(spaces[id], counts, a);
    ReflaggedOk(t, a, flags);
    TableChanged(spaces, counts, id, SetFlags(t, a, flags));
    forall p | p in counts ensures CountOk(counts, handles, spaces', p) {
      assert CountOk(counts, handles, spaces, p);
      OwnersReflagged(spaces, id, a, flags, p);
    }
  }

  // ---- The journal ----

  /** The table after the journal has been undone, last change first. */
  ghost function Undo(changes: seq<Change>, t: Table): Table {
    if changes == [] then t
    else
      var c := changes[|changes| - 1];
      Undo(changes[..|changes| - 1], if c.address in t then SetFlags(t, c.address, c.before) else t)
  }

  /** A change whose old flags were those of the leaf is undone exactly. */
  lemma UndoLast(changes: seq<Change>, t: Table, c: Change)
    requires c.address in t && c.before == t[c.address].flags
    ensures Undo(changes + [c], SetFlags(t, c.address, c.after)) == Undo(changes, t)
  {
    var u := SetFlags(t, c.address, c.after);
    assert (changes + [c])[..|changes|] == changes;
    assert SetFlags(u, c.address, c.before) == t;
  }

  /** Every recorded change is to a present leaf and keeps its kind. */
  ghost predicate JournalOk(changes: seq<Change>, t: Table) {
    forall i | 0 <= i < |changes| ::
      changes[i].address in t && KindOf(changes[i].before) == KindOf(t[changes[i].address].flags)
  }

  // ---- What committed calls amount to ----

  /** The flags one successful call gives, by leaf address. */
  type Effect = map<nat, Flags>

  function Applied(t: Table, e: Effect): Table {
    map a | a in t :: if a in e then t[a].(flags := e[a]) else t[a]
  }

  ghost function AppliedAll(t: Table, effects: seq<Effect>): Table {
    if effects == [] then t else Applied(AppliedAll(t, effects[..|effects| - 1]), effects[|effects| - 1])
  }

  /** The last call that covers a leaf, if any. */
  ghost predicate LastCovering(effects: seq<Effect>, a: nat, i: nat) {
    i < |effects| && a in effects[i] && forall j | i < j < |effects| :: a !in effects[j]
  }

  lemma {:induction false} AppliedKeys(t: Table, effects: seq<Effect>)
    ensures AppliedAll(t, effects).Keys == t.Keys
  {
    if effects != [] { AppliedKeys(t, effects[..|effects| - 1]); }
  }

  /** Each leaf ends with the flags of the last call covering it... */
  lemma {:induction false} LastCallWins(t: Table, effects: seq<Effect>, a: nat, i: nat)
    requires a in t && LastCovering(effects, a, i)
    ensures a in AppliedAll(t, effects) && AppliedAll(t, effects)[a] == t[a].(flags := effects[i][a])
  {
    var n := |effects| - 1;
    AppliedKeys(t, effects);
    AppliedKeys(t, effects[..n]);
    if i < n {
      assert a !in effects[n];
      assert LastCovering(effects[..n], a, i);
      LastCallWins(t, effects[..n], a, i);
    } else {
      KeepsFrame(t, effects[..n], a);
    }
  }

  lemma {:induction false} KeepsFrame(t: Table, effects: seq<Effect>, a: nat)
    requires a in t
    ensures a in AppliedAll(t, effects) && AppliedAll(t, effects)[a].(flags := t[a].flags) == t[a]
  {
    AppliedKeys(t, effects);
    if effects != [] {
      AppliedKeys(t, effects[..|effects| - 1]);
      KeepsFrame(t, effects[..|effects| - 1], a);
    }
  }

  /** ... or with its own when none does. */
  lemma {:induction false} UncoveredKept(t: Table, effects: seq<Effect>, a: nat)
    requires a in t && forall i | 0 <= i < |effects| :: a !in effects[i]
    ensures a in AppliedAll(t, effects) && AppliedAll(t, effects)[a] == t[a]
  {
    if effects != [] {
      AppliedKeys(t, effects[..|effects| - 1]);
      UncoveredKept(t, effects[..|effects| - 1], a);
    }
  }

  // ---- One call: prepare, then apply ----

  /** The table after a list of changes. */
  ghost function Redo(t: Table, list: seq<Change>): Table
    requires forall k | 0 <= k < |list| :: list[k].address in t
    ensures Redo(t, list).Keys == t.Keys
  {
    if list == [] then t
    else
      var c := list[|list| - 1];
      SetFlags(Redo(t, list[..|list| - 1]), c.address, c.after)
  }

  /** A list of changes to different leaves of t, recorded with the flags they had in t. */
  ghost predicate Fresh(t: Table, list: seq<Change>) {
    && (forall k | 0 <= k < |list| :: list[k].address in t && list[k].before == t[list[k].address].flags)
    && (forall k | 0 <= k < |list| :: KindOf(list[k].before) == KindOf(list[k].after))
    && (forall j, k | 0 <= j < k < |list| :: list[j].address < list[k].address)
  }

  lemma FreshPrefix(t: Table, list: seq<Change>, n: nat)
    requires Fresh(t, list) && n <= |list|
    ensures Fresh(t, list[..n])
  {
  }

  lemma {:induction false} RedoAt(t: Table, list: seq<Change>, a: nat)
    requires Fresh(t, list) && a in t
    ensures forall k | 0 <= k < |list| && list[k].address == a :: Redo(t, list)[a] == t[a].(flags := list[k].after)
    ensures (forall k | 0 <= k < |list| :: list[k].address != a) ==> Redo(t, list)[a] == t[a]
    ensures KindOf(Redo(t, list)[a].flags) == KindOf(t[a].flags)
  {
    if list != [] {
      var n := |list| - 1;
      FreshPrefix(t, list, n);
      RedoAt(t, list[..n], a);
      assert forall k | 0 <= k < n :: list[..n][k] == list[k];
    }
  }

  /** Undoing the whole list after the earlier journal gives what the earlier journal alone gives. */
  lemma {:induction false} UndoRedo(journal: seq<Change>, t: Table, list: seq<Change>)
    requires Fresh(t, list)
    ensures Undo(journal + list, Redo(t, list)) == Undo(journal, t)
  {
    if list == [] {
      assert journal + list == journal;
    } else {
      var n := |list| - 1;
      FreshPrefix(t, list, n);
      UndoRedo(journal, t, list[..n]);
      LastBefore(t, list);
      UndoLast(journal + list[..n], Redo(t, list[..n]), list[n]);
      Longer(journal, list);
    }
  }

  /** The last change was recorded with the flags the earlier ones leave. */
  lemma LastBefore(t: Table, list: seq<Change>)
    requires Fresh(t, list) && list != []
    ensures var n := |list| - 1;
            && Fresh(t, list[..n]) && list[n].address in Redo(t, list[..n])
            && list[n].before == Redo(t, list[..n])[list[n].address].flags
  {
    var n := |list| - 1;
    FreshPrefix(t, list, n);
    RedoAt(t, list[..n], list[n].address);
    assert forall k | 0 <= k < n :: list[..n][k] == list[k];
  }

  lemma Longer(journal: seq<Change>, list: seq<Change>)
    requires list != []
    ensures journal + list == journal + list[..|list| - 1] + [list[|list| - 1]]
  {
  }

  lemma JournalExtends(journal: seq<Change>, t: Table, list: seq<Change>)
    requires JournalOk(journal, t) && Fresh(t, list)
    ensures JournalOk(journal + list, Redo(t, list))
  {
    var u := Redo(t, list);
    forall i | 0 <= i < |journal + list|
      ensures (journal + list)[i].address in u && KindOf((journal + list)[i].before)
              == KindOf(u[(journal + list)[i].address].flags)
    {
      var c := (journal + list)[i];
      if i < |journal| { assert c == journal[i]; } else { assert c == list[i - |journal|]; }
      RedoAt(t, list, c.address);
    }
  }

  /** The flags a call gives to one leaf. */
  function Chosen(t: Table, a: nat, kind: Kind, riscv: bool, choose: (nat, nat) -> Result<Flags>): Result<Flags>
    requires a in t
  {
    var f := choose(a, t[a].phys);
    if f.Err? then f else PteFlags(kind, f.value, riscv)
  }

  /** What a call with these arguments does when it succeeds. */
  ghost predicate Gives(t: Table, lo: nat, hi: nat, kind: Kind, riscv: bool, choose: (nat, nat) -> Result<Flags>,
                        e: Effect) {
    && e.Keys == Overlapping(t, lo, hi)
    && forall a | a in e :: a in t && Chosen(t, a, kind, riscv, choose) == Ok(e[a])
  }

  ghost function EffectOf(list: seq<Change>): Effect {
    if list == [] then map[] else EffectOf(list[..|list| - 1])[list[|list| - 1].address := list[|list| - 1].after]
  }

  lemma {:induction false} EffectExactly(list: seq<Change>, a: nat)
    requires forall j, k | 0 <= j < k < |list| :: list[j].address < list[k].address
    ensures a in EffectOf(list) <==> exists k :: 0 <= k < |list| && list[k].address == a
    ensures forall k | 0 <= k < |list| && list[k].address == a ::
              a in EffectOf(list) && EffectOf(list)[a] == list[k].after
  {
    if list != [] {
      var n := |list| - 1;
      EffectExactly(list[..n], a);
      assert forall k | 0 <= k < n :: list[..n][k] == list[k];
    }
  }

  lemma RedoIsApplied(t: Table, list: seq<Change>)
    requires Fresh(t, list)
    ensures Redo(t, list) == Applied(t, EffectOf(list))
  {
    forall a | a in t ensures Redo(t, list)[a] == Applied(t, EffectOf(list))[a] {
      RedoAt(t, list, a);
      EffectExactly(list, a);
    }
  }

  /** One prepared change for each leaf of the walk. */
  ghost predicate Planned(t: Table, walk: seq<nat>, list: seq<Change>, kind: Kind, riscv: bool,
                          choose: (nat, nat) -> Result<Flags>) {
    && |list| == |walk|
    && forall k | 0 <= k < |walk| :: PlannedAt(t, walk[k], list[k], kind, riscv, choose)
  }

  ghost predicate PlannedAt(t: Table, a: nat, c: Change, kind: Kind, riscv: bool, choose: (nat, nat) -> Result<Flags>) {
    a in t && c.address == a && c.before == t[a].flags && Chosen(t, a, kind, riscv, choose) == Ok(c.after)
  }

  ghost predicate AllChosen(t: Table, lo: nat, hi: nat, kind: Kind, riscv: bool, choose: (nat, nat) -> Result<Flags>) {
    forall a | a in Overlapping(t, lo, hi) :: Chosen(t, a, kind, riscv, choose).Ok?
  }

  lemma PlannedIsFresh(t: Table, walk: seq<nat>, list: seq<Change>, lo: nat, hi: nat, kind: Kind, page: PageSize,
                       riscv: bool,
                       choose: (nat, nat) -> Result<Flags>)
    requires walk == Walk(Overlapping(t, lo, hi)) && Planned(t, walk, list, kind, riscv, choose)
    requires AllRemovable(t, lo, hi, kind, page)
    ensures Fresh(t, list)
  {
    forall k | 0 <= k < |list|
      ensures list[k].address in t && list[k].before == t[list[k].address].flags
              && KindOf(list[k].before) == KindOf(list[k].after)
    {
      assert PlannedAt(t, walk[k], list[k], kind, riscv, choose);
      assert walk[k] in Overlapping(t, lo, hi) && RemovableLeaf(t, walk[k], lo, hi, kind, page);
      PteFlagsMeaning(kind, choose(walk[k], t[walk[k]].phys).value, riscv);
    }
    forall j, k | 0 <= j < k < |list| ensures list[j].address < list[k].address {
      assert PlannedAt(t, walk[j], list[j], kind, riscv, choose) && PlannedAt(t, walk[k], list[k], kind, riscv, choose);
    }
  }

  lemma PlannedGives(t: Table, walk: seq<nat>, list: seq<Change>, lo: nat, hi: nat, kind: Kind, riscv: bool,
                     choose: (nat, nat) -> Result<Flags>)
    requires walk == Walk(Overlapping(t, lo, hi)) && Planned(t, walk, list, kind, riscv, choose) && Fresh(t, list)
    ensures Gives(t, lo, hi, kind, riscv, choose, EffectOf(list))
  {
    forall a: nat ensures a in EffectOf(list) <==> a in Overlapping(t, lo, hi) {
      assert a in walk <==> a in Overlapping(t, lo, hi);
      PlannedKey(t, walk, list, kind, riscv, choose, a);
    }
    forall a | a in EffectOf(list) ensures a in t && Chosen(t, a, kind, riscv, choose) == Ok(EffectOf(list)[a]) {
      PlannedValue(t, walk, list, kind, riscv, choose, a);
    }
  }

  lemma PlannedKey(t: Table, walk: seq<nat>, list: seq<Change>, kind: Kind, riscv: bool,
                   choose: (nat, nat) -> Result<Flags>, a: nat)
    requires Planned(t, walk, list, kind, riscv, choose) && Fresh(t, list)
    ensures a in EffectOf(list) <==> a in walk
  {
    EffectExactly(list, a);
    if a in walk {
      var k :| 0 <= k < |walk| && walk[k] == a;
      assert PlannedAt(t, walk[k], list[k], kind, riscv, choose);
    }
    if a in EffectOf(list) {
      var k :| 0 <= k < |list| && list[k].address == a;
      assert PlannedAt(t, walk[k], list[k], kind, riscv, choose) && walk[k] in walk;
    }
  }

  lemma PlannedValue(t: Table, walk: seq<nat>, list: seq<Change>, kind: Kind, riscv: bool,
                     choose: (nat, nat) -> Result<Flags>, a: nat)
    requires Planned(t, walk, list, kind, riscv, choose) && Fresh(t, list) && a in EffectOf(list)
    ensures a in t && Chosen(t, a, kind, riscv, choose) == Ok(EffectOf(list)[a])
  {
    EffectExactly(list, a);
    var k :| 0 <= k < |list| && list[k].address == a;
    assert PlannedAt(t, walk[k], list[k], kind, riscv, choose);
  }

  /** An Alloc leaf is the only owner of its frame. */
  ghost predicate Sole(handles: multiset<nat>, spaces: Spaces, id: nat, a: nat)
    requires id in spaces && a in spaces[id].table
  {
    spaces[id].table[a].phys !in handles && Owners(spaces, spaces[id].table[a].phys) == {(id, a)}
  }

  class Transaction {
    const memory: Memory
    const id: nat
    var changes: seq<Change>
    var committed: bool
    /** The address space when the transaction began, and what its successful calls gave. */
    ghost var began: Space
    ghost var effects: seq<Effect>

    ghost predicate Bound()
      reads this, memory
    {
      memory.Valid() && id in memory.spaces && memory.spaces[id] == began.(table := memory.spaces[id].table)
    }

    ghost predicate Valid()
      reads this, memory
    {
      && Bound()
      && JournalOk(changes, memory.spaces[id].table)
      && Undo(changes, memory.spaces[id].table) == began.table
      && memory.spaces[id].table == AppliedAll(began.table, effects)
    }

    /** `begin_protection` */
    constructor (memory: Memory, id: nat)
      requires memory.Valid() && id in memory.spaces
      ensures Valid() && this.memory == memory && this.id == id && !committed && changes == [] && effects == []
      ensures began == memory.spaces[id]
    {
      this.memory := memory;
      this.id := id;
      changes := [];
      committed := false;
      began := memory.spaces[id];
      effects := [];
    }

    /** The page table's `protect` on a present leaf. */
    method ProtectLeaf(a: nat, flags: Flags)
      requires Bound() && a in memory.spaces[id].table && KindOf(flags) == KindOf(memory.spaces[id].table[a].flags)
      modifies memory
      ensures Bound()
      ensures Becomes(old(memory.spaces), memory.spaces, id, SetFlags(old(memory.spaces)[id].table, a, flags))
      ensures memory.counts == old(memory.counts) && memory.free == old(memory.free)
              && memory.handles == old(memory.handles)
    {
      Reflagged(memory.counts, memory.free, memory.pool - memory.free, memory.handles, memory.spaces, id, a, flags);
      memory.spaces := SetTable(memory.spaces, id, SetFlags(memory.spaces[id].table, a, flags));
    }

    /** The preparing walk: one journal entry for each leaf, all taken back at the first error. */
    method Prepare(walk: seq<nat>, kind: Kind, choose: (nat, nat) -> Result<Flags>) returns (fault: Option<Error>)
      requires id in memory.spaces && forall k | 0 <= k < |walk| :: walk[k] in memory.spaces[id].table
      modifies this`changes
      ensures fault.Some? ==> changes == old(changes)
      ensures fault.Some? ==>
                exists k :: 0 <= k < |walk| && Chosen(memory.spaces[id].table, walk[k], kind, memory.riscv, choose).Err?
      ensures fault == None ==>
                && |old(changes)| <= |changes| && changes[..|old(changes)|] == old(changes)
                && Planned(memory.spaces[id].table, walk, changes[|old(changes)|..], kind, memory.riscv, choose)
    {
      var first := |changes|;
      ghost var list := [];
      fault := None;
      ghost var at := 0;
      for i := 0 to |walk|
        invariant changes == old(changes) + list
        invariant fault == None ==> Planned(memory.spaces[id].table, walk[..i], list, kind, memory.riscv, choose)
        invariant fault.Some? ==> at < i && Chosen(memory.spaces[id].table, walk[at], kind, memory.riscv, choose).Err?
      {
        if fault == None {
          var f := Chosen(memory.spaces[id].table, walk[i], kind, memory.riscv, choose);
          if f.Err? {
            fault, at := Some(f.error), i;
          } else {
            var c := Change(walk[i], memory.spaces[id].table[walk[i]].flags, f.value);
            changes := changes + [c];
            list := list + [c];
          }
        }
      }
      assert walk[..|walk|] == walk;
      if fault.Some? {
        changes := changes[..first];
      }
    }

    /** The applying loop. */
    method ApplyFrom(first: nat)
      requires Bound() && first <= |changes| && Fresh(memory.spaces[id].table, changes[first..])
      modifies memory
      ensures Bound()
      ensures Becomes(old(memory.spaces), memory.spaces, id, Redo(old(memory.spaces)[id].table, changes[first..]))
      ensures memory.counts == old(memory.counts) && memory.free == old(memory.free)
              && memory.handles == old(memory.handles)
    {
      ghost var was, t, list := memory.spaces, memory.spaces[id].table, changes[first..];
      assert was == SetTable(was, id, t);
      for index := first to |changes|
        invariant Bound() && Becomes(was, memory.spaces, id, Redo(t, list[..index - first]))
        invariant memory.counts == old(memory.counts) && memory.free == old(memory.free)
                  && memory.handles == old(memory.handles)
      {
        ghost var mid := memory.spaces;
        ApplyOne(index, t, list, index - first);
        BecomesAgain(was, mid, memory.spaces, id, Redo(t, list[..index - first + 1]));
      }
      assert list[..|list|] == list;
    }

    method ApplyOne(index: nat, ghost t: Table, ghost list: seq<Change>, ghost k: nat)
      requires Bound() && Fresh(t, list) && k < |list| && index < |changes| && changes[index] == list[k]
      requires memory.spaces[id].table == Redo(t, list[..k])
      modifies memory
      ensures Bound() && Becomes(old(memory.spaces), memory.spaces, id, Redo(t, list[..k + 1]))
      ensures memory.counts == old(memory.counts) && memory.free == old(memory.free)
              && memory.handles == old(memory.handles)
    {
      FreshPrefix(t, list, k);
      FreshPrefix(t, list, k + 1);
      RedoAt(t, list[..k], list[k].address);
      ProtectLeaf(changes[index].address, changes[index].after);
      assert list[..k + 1][..k] == list[..k];
    }

    /** `protect_range`: an error changes nothing; success gives every leaf of the range the flags
        chosen for it, and stays undoable. */
    method ProtectRange(start: nat, size: nat, kind: Kind, page: PageSize, expected: Option<nat>, reserve: bool,
                        choose: (nat, nat) -> Result<Flags>) returns (r: Result<Unit>)
      requires Valid()
      modifies this`changes, this`effects, memory
      ensures Valid() && SameSpaces(old(memory.spaces), memory.spaces, id)
      ensures memory.counts == old(memory.counts) && memory.free == old(memory.free)
              && memory.handles == old(memory.handles)
      ensures r.Err? ==> changes == old(changes) && effects == old(effects) && memory.spaces == old(memory.spaces)
      ensures r.Ok? ==>
                && |effects| == |old(effects)| + 1 && effects[..|old(effects)|] == old(effects)
                && Gives(old(memory.spaces)[id].table, start, start + size, kind, memory.riscv, choose,
                    effects[|old(effects)|])
      ensures var s := old(memory.spaces)[id];
              r.Ok? <==>
                && ValidRange(s, start, size, page) && AllRemovable(s.table, start, start + size, kind, page)
                && (expected.Some? ==> expected.value == |Overlapping(s.table, start, start + size)|) && reserve
                && AllChosen(s.table, start, start + size, kind, memory.riscv, choose)
    {
      ghost var s := memory.spaces[id];
      if ValidRange(s, start, size, page) {
        RemovableExactly(memory.counts, memory.free, memory.pool - memory.free, memory.handles, memory.spaces, id,
            start, start + size, kind, page);
      }
      var leaves := memory.Preflight(id, start, size, kind, page);
      if leaves.Err? { return Err(leaves.error); }
      if expected.Some? && expected.value != leaves.value { return Err(BadState); }
      if !reserve { return Err(OutOfMemory); }
      var first := |changes|;
      var fault := PrepareRange(start, start + size, kind, page, choose);
      if fault.Some? { return Err(fault.value); }
      Carry(first);
      return Ok(Unit);
    }

    method PrepareRange(lo: nat, hi: nat, kind: Kind, ghost page: PageSize, choose: (nat, nat) -> Result<Flags>)
      returns (fault: Option<Error>)
      requires id in memory.spaces && AllRemovable(memory.spaces[id].table, lo, hi, kind, page)
      modifies this`changes
      ensures fault == None <==> AllChosen(memory.spaces[id].table, lo, hi, kind, memory.riscv, choose)
      ensures fault.Some? ==> changes == old(changes)
      ensures fault == None ==>
                && |old(changes)| <= |changes| && changes[..|old(changes)|] == old(changes)
                && Fresh(memory.spaces[id].table, changes[|old(changes)|..])
                && Gives(memory.spaces[id].table, lo, hi, kind, memory.riscv, choose,
                    EffectOf(changes[|old(changes)|..]))
    {
      ghost var t := memory.spaces[id].table;
      var walk := Walk(Overlapping(memory.spaces[id].table, lo, hi));
      WalkInTable(t, lo, hi, walk);
      fault := Prepare(walk, kind, choose);
      if fault.Some? {
        ghost var k :| 0 <= k < |walk| && Chosen(memory.spaces[id].table, walk[k], kind, memory.riscv, choose).Err?;
        assert walk[k] in walk;
      } else {
        PlannedIsFresh(t, walk, changes[|old(changes)|..], lo, hi, kind, page, memory.riscv, choose);
        PlannedGives(t, walk, changes[|old(changes)|..], lo, hi, kind, memory.riscv, choose);
      }
    }

    /** Applies the prepared entries, which makes them part of the undoable journal. */
    method Carry(first: nat)
      requires Bound() && first <= |changes| && JournalOk(changes[..first], memory.spaces[id].table)
      requires Undo(changes[..first], memory.spaces[id].table) == began.table
      requires memory.spaces[id].table == AppliedAll(began.table, effects)
      requires Fresh(memory.spaces[id].table, changes[first..])
      modifies this`effects, memory
      ensures Valid() && SameSpaces(old(memory.spaces), memory.spaces, id)
      ensures memory.counts == old(memory.counts) && memory.free == old(memory.free)
              && memory.handles == old(memory.handles)
      ensures effects == old(effects) + [EffectOf(changes[first..])]
    {
      ghost var t, list := memory.spaces[id].table, changes[first..];
      assert changes == changes[..first] + list;
      UndoRedo(changes[..first], t, list);
      JournalExtends(changes[..first], t, list);
      RedoIsApplied(t, list);
      ApplyFrom(first);
      effects := effects + [EffectOf(list)];
      assert effects[..|effects| - 1] == old(effects);
    }

    /** `protect_alloc_range_with`: the flags depend on whether the leaf is its frame's only owner. */
    method ProtectAllocRangeWith(start: nat, size: nat, reserve: bool, flags: bool -> Flags) returns (r: Result<Unit>)
      requires Valid()
      modifies this`changes, this`effects, memory
      ensures Valid() && SameSpaces(old(memory.spaces), memory.spaces, id)
      ensures memory.counts == old(memory.counts) && memory.free == old(memory.free)
              && memory.handles == old(memory.handles)
      ensures r.Err? ==> changes == old(changes) && effects == old(effects) && memory.spaces == old(memory.spaces)
      ensures r.Ok? ==>
                && |effects| == |old(effects)| + 1 && effects[..|old(effects)|] == old(effects)
                && effects[|old(effects)|].Keys == Overlapping(old(memory.spaces)[id].table, start, start + size)
                && forall a | a in effects[|old(effects)|] ::
                     && a in old(memory.spaces)[id].table
                     && var sole := Sole(old(memory.handles), old(memory.spaces), id, a);
                        Ok(effects[|old(effects)|][a]) == PteFlags(Alloc, flags(sole), memory.riscv)
      ensures var s := old(memory.spaces)[id];
              r.Ok? <==>
                && ValidRange(s, start, size, Size4K) && AllRemovable(s.table, start, start + size, Alloc, Size4K)
                    && reserve
                && forall a | a in Overlapping(s.table, start, start + size) ::
                     PteFlags(Alloc, flags(Sole(old(memory.handles), old(memory.spaces), id, a)), memory.riscv).Ok?
    {
      var counts := memory.counts;
      var choose := (a: nat, p: nat) =>
        if p !in counts then Err(BadAddress)
        else if counts[p] == 0 then Err(BadState)
        else Ok(flags(counts[p] == 1));
      ghost var t := memory.spaces[id].table;
      forall a | a in t && KindOf(t[a].flags) == Alloc
        ensures choose(a, t[a].phys) == Ok(flags(Sole(memory.handles, memory.spaces, id, a)))
      {
        SoleOwner(memory.counts, memory.free, memory.pool - memory.free, memory.handles, memory.spaces, id, a);
      }
      if AllRemovable(t, start, start + size, Alloc, Size4K) {
        forall a | a in Overlapping(t, start, start + size)
          ensures Chosen(t, a, Alloc, memory.riscv, choose) ==
                  PteFlags(Alloc, flags(Sole(memory.handles, memory.spaces, id, a)), memory.riscv)
        {
          assert RemovableLeaf(t, a, start, start + size, Alloc, Size4K);
        }
      }
      r := ProtectRange(start, size, Alloc, Size4K, None, reserve, choose);
    }

    method Commit()
      requires Valid()
      modifies this`committed
      ensures Valid() && committed
    {
      committed := true;
    }

    /** `drop`: an uncommitted transaction leaves its space as it was when it began; a committed one
        leaves the effects of its successful calls, in order. Other spaces are not touched. */
    method Finish()
      requires Valid()
      modifies memory
      ensures memory.Valid() && id in memory.spaces
      ensures memory.counts == old(memory.counts) && memory.free == old(memory.free)
              && memory.handles == old(memory.handles)
      ensures committed ==>
                memory.spaces == old(memory.spaces) && memory.spaces[id].table == AppliedAll(began.table, effects)
      ensures !committed ==> memory.spaces == old(memory.spaces)[id := began]
    {
      if committed { return; }
      ghost var was := memory.spaces;
      var n := |changes|;
      assert changes[..n] == changes;
      while n > 0
        invariant 0 <= n <= |changes| && Bound() && SameSpaces(was, memory.spaces, id)
        invariant JournalOk(changes[..n], memory.spaces[id].table)
        invariant Undo(changes[..n], memory.spaces[id].table) == began.table
        invariant memory.counts == old(memory.counts) && memory.free == old(memory.free)
                  && memory.handles == old(memory.handles)
      {
        n := n - 1;
        ghost var mid := memory.spaces;
        UndoOne(n);
        BecomesAgain(was, mid, memory.spaces, id, memory.spaces[id].table);
      }
      assert changes[..0] == [];
      assert memory.spaces[id].table == began.table;
    }

    method UndoOne(n: nat)
      requires Bound() && n < |changes| && JournalOk(changes[..n + 1], memory.spaces[id].table)
      modifies memory
      ensures Bound() && JournalOk(changes[..n], memory.spaces[id].table)
      ensures SameSpaces(old(memory.spaces), memory.spaces, id)
      ensures Undo(changes[..n], memory.spaces[id].table) == old(Undo(changes[..n + 1], memory.spaces[id].table))
      ensures memory.counts == old(memory.counts) && memory.free == old(memory.free)
              && memory.handles == old(memory.handles)
    {
      var c := changes[n];
      assert changes[..n + 1][n] == c && changes[..n + 1][..n] == changes[..n];
      ProtectLeaf(c.address, c.before);
    }
  }

  /** Two transactions on different spaces: the end of one leaves the other valid. */
  method FinishBeside(tx: Transaction, other: Transaction)
    requires tx.Valid() && other.Valid() && tx.memory == other.memory && tx.id != other.id
    modifies tx.memory
    ensures tx.Valid()
    ensures !other.committed ==> other.memory.spaces == old(other.memory.spaces)[other.id := other.began]
  {
    other.Finish();
  }
}
